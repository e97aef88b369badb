/** The promises of the template system, for every reachable state of every interleaving. */
module TemplateGuarantees {
  import opened Values
  import opened PlaceholderText
  import opened TemplateValidation
  import opened TemplateStore
  import opened TemplateSafety

  function Reached(d: Deployment, seed: Rows, steps: seq<Step>): State {
    Run(d, Start(seed), steps)
  }

  function EffectiveOf(s: State, slot: Slot): Effective
    requires slot.template in s.rows
  {
    Resolve(s.rows[slot.template], Lookup(s.overrides, slot))
  }

  /** Whatever has interleaved, what a tenant sees holds a token for every required
      placeholder of the current default. */
  lemma EffectiveKeepsRequired(d: Deployment, seed: Rows, steps: seq<Step>, slot: Slot, p: Placeholder)
    requires Wordlike(d.word) && SeedOk(seed)
    requires slot.template in Reached(d, seed, steps).rows
    requires p in Reached(d, seed, steps).rows[slot.template].placeholders && p.required
    ensures var e := EffectiveOf(Reached(d, seed, steps), slot);
            Occurs(Content(e.subject, e.body), p.key)
  {
    var s := Reached(d, seed, steps);
    var row := s.rows[slot.template];
    RunKeepsSlot(d, seed, steps, slot);
    RunKeepsTemplate(d, seed, steps, slot.template);
    var e := EffectiveOf(s, slot);
    if slot !in s.overrides {
      AcceptedDefaultsPassOverrideCheck(d.word, row.subject, row.body, row.placeholders);
    }
    assert MissingFromOverride(d.word, row.placeholders, e.subject, e.body) == {};
    OverrideCheckIsStrict(d.word, row.placeholders, e.subject, e.body);
  }

  // ----- What the values are, field by field -----

  /** The effective value of an override is all its own but for metadata, where its keys win
      over those of the default. */
  lemma EffectiveIs(default: Row, o: Option<Override>)
    ensures var e := Resolve(default, o);
            && e.isCustomized == o.Some?
            && e.subject == (if o.Some? then o.value.subject else default.subject)
            && e.body == (if o.Some? then o.value.body else default.body)
            && e.isActive == (if o.Some? then o.value.isActive else default.isActive)
            && forall key :: Lookup(e.metadata, key) ==
                 if o.Some? && o.value.metadata.Some? && key in o.value.metadata.value
                 then Some(o.value.metadata.value[key]) else Lookup(default.metadata, key)
  {}

  /** A key is in the contract if it is declared, with the flag of its last declaration. */
  lemma {:induction false} ContractIs(ps: seq<Placeholder>)
    ensures forall key :: key in Contract(ps) <==> exists p :: p in ps && p.key == key
    ensures forall i :: 0 <= i < |ps| && (forall j :: i < j < |ps| ==> ps[j].key != ps[i].key) ==>
              ps[i].key in Contract(ps) && Contract(ps)[ps[i].key] == ps[i].required
  {
    if ps != [] {
      var init, last := ps[..|ps| - 1], ps[|ps| - 1];
      ContractIs(init);
      assert ps == init + [last];
    }
  }

  /** What a save is accepted for, in terms of the text: a body, and every required key of the
      default in the merged text. */
  lemma SaveAcceptedIs(d: Deployment, default: Row, o: Option<Override>, r: SaveRequest)
    requires Wordlike(d.word) && ContentOk(default)
    ensures SaveAccepted(d, default, o, r) <==>
            && r.body != Some(None)
            && var subject := if r.subject.Some? then r.subject.value
                              else if o.Some? then o.value.subject else default.subject;
               var body := if r.body.Some? then r.body.value.GetOr("")
                           else if o.Some? then o.value.body else default.body;
               forall p :: p in default.placeholders && p.required ==> Occurs(Content(subject, body), p.key)
  {
    var body := MergedBody(default, o, r);
    if body.Some? {
      OverrideCheckIsStrict(d.word, default.placeholders, MergedSubject(default, o, r), body.value);
    }
  }

  /** What the tenant sees after an accepted save: the supplied fields, what was seen before
      for the others, and the supplied metadata over the default's. */
  lemma SavedIsSeen(d: Deployment, default: Row, o: Option<Override>, r: SaveRequest)
    requires SaveAccepted(d, default, o, r)
    ensures var was, e := Resolve(default, o), Resolve(default, ApplyEntry(d, o, Saved(r, default)));
            && e.isCustomized && r.body != Some(None)
            && e.subject == (if r.subject.Some? then r.subject.value else was.subject)
            && e.body == (if r.body.Some? then r.body.value.GetOr("") else was.body)
            && e.isActive == (if r.isActive.Some? then r.isActive.value else if o.Some? then was.isActive else true)
            && forall key :: Lookup(e.metadata, key) ==
                 if r.metadata.None? then Lookup(was.metadata, key)
                 else if key in r.metadata.value then Some(r.metadata.value[key]) else Lookup(default.metadata, key)
  {
    hide MissingFromOverride;
    EffectiveIs(default, o);
  }

  // ----- Template codes -----

  ghost predicate CodesUnique(rows: Rows) {
    forall t, u :: t in rows && u in rows && rows[t].code == rows[u].code ==> t == u
  }

  lemma StepKeepsCodes(d: Deployment, s: State, step: Step)
    requires CodesUnique(s.rows)
    ensures CodesUnique(Apply(d, s, step).rows)
  {
    hide ContentOk, UpdateAllowed, SaveAccepted;
    if IsQuiet(step) {
      QuietStepsLeaveData(d, s, step);
    }
  }

  /** In every reachable state a code names one template. */
  lemma {:induction false} CodesStayUnique(d: Deployment, seed: Rows, steps: seq<Step>)
    requires CodesUnique(seed)
    ensures CodesUnique(Reached(d, seed, steps).rows)
  {
    if steps != [] {
      CodesStayUnique(d, seed, steps[..|steps| - 1]);
      StepKeepsCodes(d, Reached(d, seed, steps[..|steps| - 1]), steps[|steps| - 1]);
    }
  }

  // ----- Compare-and-set and the audit chain -----

  lemma {:induction false} ChainCounts(seed: Option<Row>, es: seq<Event>, last: Row)
    requires Chain(seed, es, last) && (seed.Some? ==> seed.value.version == 1)
    ensures last.version == 1 + Updates(es)
    ensures forall i :: 0 <= i < |es| ==> es[i].after.version == i + (if seed.Some? then 2 else 1)
  {
    if es != [] {
      var init := es[..|es| - 1];
      match es[|es| - 1] {
        case Created(after) =>
          assert Updates(init) == 0;
        case Updated(before, after, changed) =>
          ChainCounts(seed, init, before);
          ChainLength(seed, init, before);
          assert forall i :: 0 <= i < |init| ==> es[i] == init[i];
      }
    }
  }

  lemma {:induction false} ChainLength(seed: Option<Row>, es: seq<Event>, last: Row)
    requires Chain(seed, es, last)
    ensures |es| == Updates(es) + if seed.Some? then 0 else 1
  {
    if es != [] && es[|es| - 1].Updated? {
      ChainLength(seed, es[..|es| - 1], es[|es| - 1].before);
    } else if es != [] {
      assert es[..|es| - 1] == [];
    }
  }

  /** A template's version is one plus its committed updates, its row is valid, and its
      events link the first row to the current one; since the versions of the events are
      consecutive, no two committed updates expected the same version. */
  lemma UpdatesAreAChain(d: Deployment, seed: Rows, steps: seq<Step>, t: TemplateId)
    requires SeedOk(seed) && t in Reached(d, seed, steps).rows
    ensures var s := Reached(d, seed, steps);
            && ContentOk(s.rows[t])
            && s.rows[t].version == 1 + Updates(EventsOf(s, t))
            && Chain(Lookup(seed, t), EventsOf(s, t), Audit(s.rows[t]))
            && (forall i, j :: 0 <= i < j < |EventsOf(s, t)| ==>
                  EventsOf(s, t)[j].after.version == EventsOf(s, t)[i].after.version + (j - i))
  {
    var s := Reached(d, seed, steps);
    RunKeepsTemplate(d, seed, steps, t);
    ChainCounts(Lookup(seed, t), EventsOf(s, t), Audit(s.rows[t]));
  }

  // ----- Overrides are serial -----

  /** Requests alone, folded over one default. */
  function FoldOver(d: Deployment, default: Row, es: seq<Entry>): Option<Override> {
    if es == [] then None
    else
      var last := es[|es| - 1];
      ApplyEntry(d, FoldOver(d, default, es[..|es| - 1]), if last.Saved? then last.(default := default) else last)
  }

  ghost predicate EntryOk(row: Row, e: Entry) {
    e.Saved? ==> e.default.version >= 1 && NotNewer(e.default, row)
  }

  /** Every logged save was merged against an earlier or the current version of the default. */
  ghost predicate DefaultsLogged(rows: Rows, log: map<Slot, seq<Entry>>) {
    && (forall slot :: slot in log ==> slot.template in rows)
    && (forall slot, i :: slot in log && 0 <= i < |log[slot]| ==> EntryOk(rows[slot.template], log[slot][i]))
  }

  lemma NewerRowsKeepDefaults(rows: Rows, rows': Rows, log: map<Slot, seq<Entry>>)
    requires DefaultsLogged(rows, log)
    requires forall t :: t in rows ==> t in rows' && NotNewer(rows[t], rows'[t])
    ensures DefaultsLogged(rows', log)
  {}

  lemma AppendKeepsDefaults(s: State, slot: Slot, e: Entry)
    requires DefaultsLogged(s.rows, s.log) && slot.template in s.rows && EntryOk(s.rows[slot.template], e)
    ensures DefaultsLogged(s.rows, Logged(s, slot, e))
  {}

  lemma CommitLogsDefaults(d: Deployment, s: State, x: TxnId)
    requires TxnsOk(d, ViewOf(s), s.txns) && DefaultsLogged(s.rows, s.log)
    ensures var s' := DoCommitUpdate(s, x); DefaultsLogged(s'.rows, s'.log)
  {}

  lemma FinishLogsDefaults(d: Deployment, s: State, x: TxnId)
    requires TxnsOk(d, ViewOf(s), s.txns) && DefaultsLogged(s.rows, s.log)
    ensures DefaultsLogged(s.rows, DoFinishSave(d, s, x).log) && DefaultsLogged(s.rows, DoFinishReset(s, x).log)
    ensures DoFinishSave(d, s, x).rows == s.rows && DoFinishReset(s, x).rows == s.rows
  {
    if x in s.txns {
      var v := s.txns[x];
      assert TxnOk(d, ViewOf(s), x, v);
      if v.SaveRead? {
        AppendKeepsDefaults(s, v.slot, Saved(v.request, v.default));
      } else if v.ResetLocked? {
        AppendKeepsDefaults(s, v.slot, Reset);
      }
    }
  }

  lemma StepLogsDefaults(d: Deployment, s: State, step: Step)
    requires TxnsOk(d, ViewOf(s), s.txns) && DefaultsLogged(s.rows, s.log)
    ensures var s' := Apply(d, s, step); DefaultsLogged(s'.rows, s'.log)
  {
    hide TxnsOk, DefaultsLogged, DoFinishSave, DoFinishReset, CanCreate;
    match step {
      case Create(t, row, known) => NewerRowsKeepDefaults(s.rows, DoCreate(s, t, row, known).rows, s.log);
      case CommitUpdate(x) => CommitLogsDefaults(d, s, x);
      case FinishSave(x) => FinishLogsDefaults(d, s, x);
      case FinishReset(x) => FinishLogsDefaults(d, s, x);
      case _ => QuietStepsLeaveData(d, s, step);
    }
  }

  lemma {:induction false} RunLogsDefaults(d: Deployment, seed: Rows, steps: seq<Step>)
    requires SeedOk(seed)
    ensures var s := Reached(d, seed, steps); DefaultsLogged(s.rows, s.log)
  {
    if steps != [] {
      var init := steps[..|steps| - 1];
      RunLogsDefaults(d, seed, init);
      RunKeeps(d, seed, init);
      StepLogsDefaults(d, Reached(d, seed, init), steps[|steps| - 1]);
    }
  }

  lemma {:induction false} FoldOverIsFold(d: Deployment, default: Row, es: seq<Entry>)
    requires forall e :: e in es && e.Saved? ==> e.default == default
    ensures FoldOver(d, default, es) == Fold(d, es)
  {
    if es != [] {
      FoldOverIsFold(d, default, es[..|es| - 1]);
    }
  }

  /** The committed override of a slot is what its requests would leave if each ran alone,
      in the order they held the lock: each against the default it loaded, and all against
      the one default when that was never edited. */
  lemma SlotIsSerial(d: Deployment, seed: Rows, steps: seq<Step>, slot: Slot)
    requires SeedOk(seed)
    ensures var s := Reached(d, seed, steps);
            && Lookup(s.overrides, slot) == Fold(d, LogOf(s, slot))
            && (slot.template in s.rows && Updates(EventsOf(s, slot.template)) == 0 ==>
                  Lookup(s.overrides, slot) == FoldOver(d, s.rows[slot.template], LogOf(s, slot)))
  {
    var s := Reached(d, seed, steps);
    RunKeepsSlot(d, seed, steps, slot);
    if slot.template in s.rows && Updates(EventsOf(s, slot.template)) == 0 {
      RunLogsDefaults(d, seed, steps);
      UpdatesAreAChain(d, seed, steps, slot.template);
      forall e | e in LogOf(s, slot) && e.Saved? ensures e.default == s.rows[slot.template] {
        var i :| 0 <= i < |s.log[slot]| && s.log[slot][i] == e;
        assert EntryOk(s.rows[slot.template], s.log[slot][i]);
      }
      FoldOverIsFold(d, s.rows[slot.template], LogOf(s, slot));
    }
  }

  /** Two saves that supply no field in common. */
  predicate Disjoint(p: SaveRequest, q: SaveRequest) {
    && !(p.subject.Some? && q.subject.Some?) && !(p.body.Some? && q.body.Some?)
    && !(p.metadata.Some? && q.metadata.Some?) && !(p.isActive.Some? && q.isActive.Some?)
  }

  function Combine(p: SaveRequest, q: SaveRequest): SaveRequest {
    SaveRequest(if q.subject.Some? then q.subject else p.subject,
                if q.body.Some? then q.body else p.body,
                if q.metadata.Some? then q.metadata else p.metadata,
                if q.isActive.Some? then q.isActive else p.isActive)
  }

  /** A later accepted save keeps every field of the earlier one that it does not supply:
      the two act as one save, so neither of two disjoint edits is lost in either order. */
  lemma SavesCompose(d: Deployment, default: Row, o: Option<Override>, p: SaveRequest, q: SaveRequest)
    requires SaveAccepted(d, default, o, p)
    requires SaveAccepted(d, default, ApplyEntry(d, o, Saved(p, default)), q)
    ensures SaveAccepted(d, default, o, Combine(p, q))
    ensures ApplyEntry(d, ApplyEntry(d, o, Saved(p, default)), Saved(q, default))
            == ApplyEntry(d, o, Saved(Combine(p, q), default))
    ensures Disjoint(p, q) ==> Combine(p, q) == Combine(q, p)
  {}

  // ----- Isolation between tenants and from the platform -----

  /** Only a finishing request of the slot itself adds to its log. */
  lemma OnlyOwnRequestsAreLogged(d: Deployment, s: State, step: Step, slot: Slot)
    requires LogOf(Apply(d, s, step), slot) != LogOf(s, slot)
    ensures step.FinishSave? || step.FinishReset?
    ensures step.txn in s.txns && (s.txns[step.txn].SaveRead? || s.txns[step.txn].ResetLocked?)
            && s.txns[step.txn].slot == slot
  {
    hide UpdateAllowed, CanCreate, SaveAccepted, Licensed;
  }

  /** Between two points of a run in which no request of a slot finishes, a customised
      tenant keeps its text whatever the platform commits, and a tenant without an
      override always sees the current default; a finished reset leaves no override. */
  lemma OverridesAreIsolated(d: Deployment, seed: Rows, before: seq<Step>, after: seq<Step>, slot: Slot)
    requires SeedOk(seed)
    requires slot.template in Reached(d, seed, before).rows
    requires slot.template in Reached(d, seed, before + after).rows
    ensures var s := Reached(d, seed, before);
            var s' := Reached(d, seed, before + after);
            && (LogOf(s', slot) == LogOf(s, slot) ==>
                  && Lookup(s'.overrides, slot) == Lookup(s.overrides, slot)
                  && (slot in s.overrides ==>
                        EffectiveOf(s', slot).subject == EffectiveOf(s, slot).subject
                        && EffectiveOf(s', slot).body == EffectiveOf(s, slot).body)
                  && (slot !in s.overrides ==>
                        EffectiveOf(s', slot).subject == s'.rows[slot.template].subject
                        && EffectiveOf(s', slot).body == s'.rows[slot.template].body))
            && (LogOf(s', slot) != [] && LogOf(s', slot)[|LogOf(s', slot)| - 1] == Reset ==>
                  slot !in s'.overrides)
  {
    RunKeepsSlot(d, seed, before, slot);
    RunKeepsSlot(d, seed, before + after, slot);
  }
}
