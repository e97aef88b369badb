/** What every interleaving of template requests keeps. */
module TemplateSafety {
  import opened Values
  import opened PlaceholderText
  import opened TemplateValidation
  import opened TemplateStore

  function Diff(a: Row, b: Row): set<Field> {
    If(a.name != b.name, Name) + If(a.description != b.description, Description)
    + If(a.subject != b.subject, Subject) + If(a.body != b.body, Body)
    + If(a.placeholders != b.placeholders, Placeholders) + If(a.sortOrder != b.sortOrder, SortOrder)
  }

  /** A field is named exactly if its values differ. */
  lemma DiffIs(a: Row, b: Row)
    ensures (Name in Diff(a, b) <==> a.name != b.name)
            && (Description in Diff(a, b) <==> a.description != b.description)
            && (Subject in Diff(a, b) <==> a.subject != b.subject) && (Body in Diff(a, b) <==> a.body != b.body)
            && (Placeholders in Diff(a, b) <==> a.placeholders != b.placeholders)
            && (SortOrder in Diff(a, b) <==> a.sortOrder != b.sortOrder)
  {}

  /** The events lead from the seeded row, if any, to `last`: each old value is the
      previous new value, each update adds one to the version and names what it changed. */
  ghost predicate Chain(seed: Option<Row>, es: seq<Event>, last: Row) {
    if es == [] then seed.Some? && Audit(seed.value) == last
    else
      match es[|es| - 1]
      case Created(after) => |es| == 1 && seed.None? && after == last && after.version == 1
      case Updated(before, after, changed) =>
        && after == last
        && after.version == before.version + 1
        && changed == Diff(before, after)
        && after.code == before.code && after.kind == before.kind && after.isActive == before.isActive
        && Chain(seed, es[..|es| - 1], before)
  }

  function Updates(es: seq<Event>): nat {
    if es == [] then 0 else Updates(es[..|es| - 1]) + if es[|es| - 1].Updated? then 1 else 0
  }

  /** A row read earlier is the committed one unless the version has moved on. */
  ghost predicate NotNewer(read: Row, now: Row) {
    && read.version <= now.version
    && (read.version == now.version ==> read == now)
    && Contract(read.placeholders) == Contract(now.placeholders)
  }

  type Rows = map<TemplateId, Row>

  ghost predicate RowsOk(rows: Rows) {
    forall t :: t in rows ==> ContentOk(rows[t]) && rows[t].version >= 1
  }

  ghost predicate ChainsOk(seed: Rows, rows: Rows, events: map<TemplateId, seq<Event>>) {
    && seed.Keys <= rows.Keys && events.Keys <= rows.Keys
    && forall t :: t in rows ==> Chain(Lookup(seed, t), Lookup(events, t).GetOr([]), Audit(rows[t]))
  }

  /** The part of the state that a transaction's local knowledge speaks about. */
  datatype View = View(rows: Rows, rowLocks: map<TemplateId, TxnId>,
                       slotLocks: map<int, TxnId>, overrides: map<Slot, Override>)

  function ViewOf(s: State): View { View(s.rows, s.rowLocks, s.slotLocks, s.overrides) }

  ghost predicate Holds(d: Deployment, v: View, x: TxnId, slot: Slot) {
    d.lockKey(slot) in v.slotLocks && v.slotLocks[d.lockKey(slot)] == x
  }

  ghost predicate Loaded(v: View, slot: Slot, default: Row) {
    slot.template in v.rows && NotNewer(default, v.rows[slot.template]) && ContentOk(default)
    && default.version >= 1
  }

  ghost predicate TxnOk(d: Deployment, v: View, x: TxnId, txn: Txn) {
    match txn
    case Updating(t, p, current) =>
      t in v.rows && NotNewer(current, v.rows[t]) && UpdateAllowed(current, p)
    case UpdateWritten(t, p, current) =>
      t in v.rows && current == v.rows[t] && UpdateAllowed(current, p) && t in v.rowLocks && v.rowLocks[t] == x
    case Saving(slot, r, default) => Loaded(v, slot, default)
    case SaveLocked(slot, r, default) => Loaded(v, slot, default) && Holds(d, v, x, slot)
    case SaveRead(slot, r, default, seen) =>
      Loaded(v, slot, default) && Holds(d, v, x, slot) && seen == Lookup(v.overrides, slot)
    case Resetting(slot) => slot.template in v.rows
    case ResetLocked(slot) => slot.template in v.rows && Holds(d, v, x, slot)
  }

  ghost predicate TxnsOk(d: Deployment, v: View, txns: map<TxnId, Txn>) {
    forall x :: x in txns ==> TxnOk(d, v, x, txns[x])
  }

  ghost predicate OverrideOk(d: Deployment, r: Row, o: Override) {
    MissingFromOverride(d.word, r.placeholders, o.subject, o.body) == {}
  }

  ghost predicate OverridesOk(d: Deployment, rows: Rows, overrides: map<Slot, Override>) {
    forall slot :: slot in overrides ==>
      slot.template in rows && OverrideOk(d, rows[slot.template], overrides[slot])
  }

  /** The committed override is the fold of the requests in the order of the lock. */
  ghost predicate LogOk(d: Deployment, overrides: map<Slot, Override>, log: map<Slot, seq<Entry>>) {
    forall slot :: Lookup(overrides, slot) == Fold(d, Lookup(log, slot).GetOr([]))
  }

  ghost predicate DataOk(d: Deployment, seed: Rows, rows: Rows, events: map<TemplateId, seq<Event>>,
                         overrides: map<Slot, Override>, log: map<Slot, seq<Entry>>)
  {
    RowsOk(rows) && ChainsOk(seed, rows, events) && OverridesOk(d, rows, overrides) && LogOk(d, overrides, log)
  }

  ghost predicate Inv(d: Deployment, seed: Rows, s: State) {
    DataOk(d, seed, s.rows, s.events, s.overrides, s.log) && TxnsOk(d, ViewOf(s), s.txns)
  }

  // ----- The contract fixes the required keys -----

  lemma {:induction false} ContractAt(ps: seq<Placeholder>, i: nat)
    requires i < |ps| && forall a, b :: 0 <= a < b < |ps| ==> ps[a].key != ps[b].key
    ensures ps[i].key in Contract(ps) && Contract(ps)[ps[i].key] == ps[i].required
  {
    if i < |ps| - 1 {
      ContractAt(ps[..|ps| - 1], i);
    }
  }

  lemma {:induction false} ContractKeys(ps: seq<Placeholder>)
    ensures Contract(ps).Keys == DeclaredKeys(ps)
  {
    if ps != [] {
      ContractKeys(ps[..|ps| - 1]);
      assert ps == ps[..|ps| - 1] + [ps[|ps| - 1]];
    }
  }

  lemma RequiredIsContract(r: Row)
    requires ContentOk(r)
    ensures RequiredKeys(r.placeholders) ==
            set key | key in Contract(r.placeholders) && Contract(r.placeholders)[key]
  {
    var ps := r.placeholders;
    ValidateIsExact(r.subject, r.body, ps);
    ContractKeys(ps);
    forall p | p in ps ensures p.key in Contract(ps) && Contract(ps)[p.key] == p.required {
      var i :| 0 <= i < |ps| && ps[i] == p;
      ContractAt(ps, i);
    }
  }

  lemma SameContractSameRequired(a: Row, b: Row)
    requires ContentOk(a) && ContentOk(b) && Contract(a.placeholders) == Contract(b.placeholders)
    ensures RequiredKeys(a.placeholders) == RequiredKeys(b.placeholders)
  {
    RequiredIsContract(a);
    RequiredIsContract(b);
  }

  /** An allowed update writes valid content, under the same contract, and what it audits
      is what it writes. */
  lemma AllowedUpdate(current: Row, p: Patch)
    requires UpdateAllowed(current, p)
    ensures var next := WriteColumns(current, p);
            && ContentOk(next)
            && Contract(next.placeholders) == Contract(current.placeholders)
            && next.version == current.version + 1
            && UpdateEvent(current, p) == Updated(Audit(current), Audit(next), Diff(Audit(current), Audit(next)))
  {}

  /** Metadata is no part of the audit. */
  lemma AuditIs(a: Row, b: Row)
    ensures Audit(a) == a.(metadata := map[]) && Diff(Audit(a), Audit(b)) == Diff(a, b)
  {}

  // ----- What one transaction's step leaves to the others -----

  /** Rows may gain versions under the same contract, locks of others stay, and so do the
      overrides whose slots others have locked. */
  ghost predicate Undisturbed(d: Deployment, v: View, v': View, y: TxnId) {
    && (forall t :: t in v.rows ==> t in v'.rows && NotNewer(v.rows[t], v'.rows[t]))
    && (forall t :: t in v.rowLocks && v.rowLocks[t] == y ==>
          t in v'.rowLocks && v'.rowLocks[t] == y && (t in v.rows ==> v'.rows[t] == v.rows[t]))
    && (forall slot :: Holds(d, v, y, slot) ==>
          Holds(d, v', y, slot) && Lookup(v'.overrides, slot) == Lookup(v.overrides, slot))
  }

  /** Transactions that are not disturbed keep their local knowledge. */
  lemma OthersStay(d: Deployment, s: State, s': State)
    requires TxnsOk(d, ViewOf(s), s.txns)
    requires forall y :: y in s'.txns ==>
               || TxnOk(d, ViewOf(s'), y, s'.txns[y])
               || (y in s.txns && s'.txns[y] == s.txns[y] && Undisturbed(d, ViewOf(s), ViewOf(s'), y))
    ensures TxnsOk(d, ViewOf(s'), s'.txns)
  {}

  /** Between the states, only rows and slots that `x` has locked have changed. */
  ghost predicate ChangedOnlyBy(d: Deployment, s: State, m: State, x: TxnId) {
    && m.txns == s.txns && m.rowLocks == s.rowLocks && m.slotLocks == s.slotLocks
    && (forall t :: t in s.rows ==> t in m.rows && NotNewer(s.rows[t], m.rows[t]))
    && (forall t :: t in s.rows && t in m.rows && m.rows[t] != s.rows[t] ==> t in s.rowLocks && s.rowLocks[t] == x)
    && (forall slot :: Lookup(m.overrides, slot) != Lookup(s.overrides, slot) ==> Holds(d, ViewOf(s), x, slot))
  }

  lemma EndUndisturbs(d: Deployment, s: State, m: State, x: TxnId, y: TxnId)
    requires ChangedOnlyBy(d, s, m, x) && y != x
    ensures Undisturbed(d, ViewOf(s), ViewOf(End(m, x)), y)
  {}

  /** A transaction that ends having changed only rows and slots it had locked disturbs
      no other. */
  lemma CommitUndisturbs(d: Deployment, s: State, m: State, x: TxnId)
    requires TxnsOk(d, ViewOf(s), s.txns) && ChangedOnlyBy(d, s, m, x)
    ensures TxnsOk(d, ViewOf(End(m, x)), End(m, x).txns)
  {
    forall y | y in s.txns && y != x ensures Undisturbed(d, ViewOf(s), ViewOf(End(m, x)), y) {
      EndUndisturbs(d, s, m, x, y);
    }
    OthersStay(d, s, End(m, x));
  }

  /** A transaction reaches a new sound stage, perhaps taking a free lock. */
  lemma MoveUndisturbs(d: Deployment, s: State, s': State, x: TxnId, txn: Txn)
    requires TxnsOk(d, ViewOf(s), s.txns)
    requires s' == s.(txns := s.txns[x := txn], rowLocks := s'.rowLocks, slotLocks := s'.slotLocks)
    requires forall t :: t in s.rowLocks ==> t in s'.rowLocks && s'.rowLocks[t] == s.rowLocks[t]
    requires forall y, slot :: Holds(d, ViewOf(s), y, slot) ==> Holds(d, ViewOf(s'), y, slot)
    requires TxnOk(d, ViewOf(s'), x, txn)
    ensures TxnsOk(d, ViewOf(s'), s'.txns)
  {
    forall y | y in s.txns ensures Undisturbed(d, ViewOf(s), ViewOf(s'), y) {}
    OthersStay(d, s, s');
  }

  // ----- Transactions keep their local knowledge -----

  lemma CreateTxns(d: Deployment, s: State, t: TemplateId, row: Row, known: bool)
    requires TxnsOk(d, ViewOf(s), s.txns)
    ensures TxnsOk(d, ViewOf(DoCreate(s, t, row, known)), s.txns)
  {
    if t !in s.rows {
      MoreRowsTxns(d, s, t, row);
    }
  }

  lemma MoreRowsTxns(d: Deployment, s: State, t: TemplateId, row: Row)
    requires TxnsOk(d, ViewOf(s), s.txns) && t !in s.rows
    ensures TxnsOk(d, ViewOf(s).(rows := s.rows[t := row]), s.txns)
  {
    var s' := s.(rows := s.rows[t := row]);
    forall y | y in s.txns ensures Undisturbed(d, ViewOf(s), ViewOf(s'), y) {}
    OthersStay(d, s, s');
  }

  lemma WriteUpdateTxns(d: Deployment, s: State, x: TxnId)
    requires TxnsOk(d, ViewOf(s), s.txns)
    ensures var s' := DoWriteUpdate(s, x); TxnsOk(d, ViewOf(s'), s'.txns)
  {
    if x in s.txns && s.txns[x].Updating? {
      var u := s.txns[x];
      assert TxnOk(d, ViewOf(s), x, u);
      if u.template !in s.rowLocks {
        if s.rows[u.template].version == u.patch.expectedVersion {
          MoveUndisturbs(d, s, DoWriteUpdate(s, x), x, UpdateWritten(u.template, u.patch, u.current));
        } else {
          CommitUndisturbs(d, s, s, x);
        }
      }
    }
  }

  lemma CommitUpdateTxns(d: Deployment, s: State, x: TxnId)
    requires TxnsOk(d, ViewOf(s), s.txns)
    ensures var s' := DoCommitUpdate(s, x); TxnsOk(d, ViewOf(s'), s'.txns)
  {
    if x in s.txns && s.txns[x].UpdateWritten? {
      var u := s.txns[x];
      assert TxnOk(d, ViewOf(s), x, u);
      assert NotNewer(u.current, WriteColumns(u.current, u.patch)) by {
        AllowedUpdate(u.current, u.patch);
      }
      CommitUndisturbs(d, s, UpdateEffect(s, u.template, u.patch, u.current), x);
    }
  }

  lemma SaveEffectIsLocal(d: Deployment, s: State, slot: Slot, r: SaveRequest, default: Row, seen: Option<Override>)
    ensures var m := SaveEffect(d, s, slot, r, default, seen);
            && m == s.(overrides := m.overrides, log := m.log)
            && forall other :: other != slot ==> Lookup(m.overrides, other) == Lookup(s.overrides, other)
  {}

  lemma FinishSaveTxns(d: Deployment, s: State, x: TxnId)
    requires TxnsOk(d, ViewOf(s), s.txns)
    ensures var s' := DoFinishSave(d, s, x); TxnsOk(d, ViewOf(s'), s'.txns)
  {
    if x in s.txns && s.txns[x].SaveRead? {
      var v := s.txns[x];
      assert TxnOk(d, ViewOf(s), x, v);
      var m := SaveEffect(d, s, v.slot, v.request, v.default, v.seen);
      SaveEffectIsLocal(d, s, v.slot, v.request, v.default, v.seen);
      CommitUndisturbs(d, s, m, x);
    }
  }

  lemma FinishResetTxns(d: Deployment, s: State, x: TxnId)
    requires TxnsOk(d, ViewOf(s), s.txns)
    ensures var s' := DoFinishReset(s, x); TxnsOk(d, ViewOf(s'), s'.txns)
  {
    if x in s.txns && s.txns[x].ResetLocked? {
      assert TxnOk(d, ViewOf(s), x, s.txns[x]);
      CommitUndisturbs(d, s, ResetEffect(s, s.txns[x].slot), x);
    }
  }

  /** Loading reads committed rows, which are sound. */
  lemma LoadTxns(d: Deployment, s: State, step: Step)
    requires TxnsOk(d, ViewOf(s), s.txns) && RowsOk(s.rows)
    requires step.LoadForUpdate? || step.LoadForSave? || step.LoadForReset?
    ensures var s' := Apply(d, s, step); TxnsOk(d, ViewOf(s'), s'.txns)
  {
    var s' := Apply(d, s, step);
    if s' != s {
      MoveUndisturbs(d, s, s', step.txn, s'.txns[step.txn]);
    }
  }

  /** Locking and reading. */
  lemma AdvanceTxns(d: Deployment, s: State, step: Step)
    requires TxnsOk(d, ViewOf(s), s.txns)
    requires step.LockSave? || step.LockReset? || step.ReadSave?
    ensures var s' := Apply(d, s, step); TxnsOk(d, ViewOf(s'), s'.txns)
  {
    var s' := Apply(d, s, step);
    var x := step.txn;
    if s' != s {
      assert TxnOk(d, ViewOf(s), x, s.txns[x]);
      MoveUndisturbs(d, s, s', x, s'.txns[x]);
    }
  }

  lemma StepTxns(d: Deployment, s: State, step: Step)
    requires TxnsOk(d, ViewOf(s), s.txns) && RowsOk(s.rows)
    ensures var s' := Apply(d, s, step); TxnsOk(d, ViewOf(s'), s'.txns)
  {
    match step {
      case Create(t, row, known) => CreateTxns(d, s, t, row, known);
      case Entitle(_) =>
      case WriteUpdate(x) => WriteUpdateTxns(d, s, x);
      case CommitUpdate(x) => CommitUpdateTxns(d, s, x);
      case FinishSave(x) => FinishSaveTxns(d, s, x);
      case FinishReset(x) => FinishResetTxns(d, s, x);
      case Abort(x) => CommitUndisturbs(d, s, s, x);
      case LockSave(x) => AdvanceTxns(d, s, step);
      case ReadSave(x) => AdvanceTxns(d, s, step);
      case LockReset(x) => AdvanceTxns(d, s, step);
      case _ => LoadTxns(d, s, step);
    }
  }

  // ----- The committed data stays sound -----

  lemma ChainStarts(seed: Rows, s: State, t: TemplateId, row: Row)
    requires ChainsOk(seed, s.rows, s.events) && t !in s.rows && row.version == 1
    ensures ChainsOk(seed, s.rows[t := row], s.events[t := EventsOf(s, t) + [Created(Audit(row))]])
  {}

  lemma MoreRows(d: Deployment, s: State, t: TemplateId, row: Row)
    requires RowsOk(s.rows) && OverridesOk(d, s.rows, s.overrides) && t !in s.rows
    requires ContentOk(row) && row.version >= 1
    ensures RowsOk(s.rows[t := row]) && OverridesOk(d, s.rows[t := row], s.overrides)
  {}

  lemma CreateData(d: Deployment, seed: Rows, s: State, t: TemplateId, row: Row, known: bool)
    requires DataOk(d, seed, s.rows, s.events, s.overrides, s.log)
    ensures var s' := DoCreate(s, t, row, known); DataOk(d, seed, s'.rows, s'.events, s'.overrides, s'.log)
  {
    if DoCreate(s, t, row, known) != s {
      MoreRows(d, s, t, row);
      ChainStarts(seed, s, t, row);
    }
  }

  lemma ChainStep(seed: Option<Row>, es: seq<Event>, before: Row, after: Row)
    requires Chain(seed, es, before)
    requires after == before.(name := after.name, description := after.description, subject := after.subject,
                              body := after.body, placeholders := after.placeholders,
                              sortOrder := after.sortOrder, version := before.version + 1)
    ensures Chain(seed, es + [Updated(before, after, Diff(before, after))], after)
  {}

  /** A commit of a new version extends the chain. */
  lemma ChainExtends(seed: Rows, s: State, t: TemplateId, p: Patch)
    requires ChainsOk(seed, s.rows, s.events) && t in s.rows && UpdateAllowed(s.rows[t], p)
    ensures ChainsOk(seed, s.rows[t := WriteColumns(s.rows[t], p)],
                     s.events[t := EventsOf(s, t) + [UpdateEvent(s.rows[t], p)]])
  {
    hide Chain, UpdateAllowed, ContentOk, UpdateEvent, Diff;
    var now := s.rows[t];
    var next := WriteColumns(now, p);
    AllowedUpdate(now, p);
    assert Chain(Lookup(seed, t), EventsOf(s, t), Audit(now));
    ChainStep(Lookup(seed, t), EventsOf(s, t), Audit(now), Audit(next));
    var events := s.events[t := EventsOf(s, t) + [UpdateEvent(now, p)]];
    assert Chain(Lookup(seed, t), Lookup(events, t).GetOr([]), Audit(next));
  }

  lemma RowsStayOk(d: Deployment, s: State, t: TemplateId, next: Row)
    requires RowsOk(s.rows) && t in s.rows && OverridesOk(d, s.rows, s.overrides)
    requires NotNewer(s.rows[t], next) && ContentOk(next)
    ensures RowsOk(s.rows[t := next])
    ensures OverridesOk(d, s.rows[t := next], s.overrides)
  {
    SameContractSameRequired(s.rows[t], next);
  }

  lemma CommitUpdateData(d: Deployment, seed: Rows, s: State, x: TxnId)
    requires DataOk(d, seed, s.rows, s.events, s.overrides, s.log)
    requires x in s.txns ==> TxnOk(d, ViewOf(s), x, s.txns[x])
    ensures var s' := DoCommitUpdate(s, x); DataOk(d, seed, s'.rows, s'.events, s'.overrides, s'.log)
  {
    if x in s.txns && s.txns[x].UpdateWritten? {
      var u := s.txns[x];
      AllowedUpdate(u.current, u.patch);
      ChainExtends(seed, s, u.template, u.patch);
      RowsStayOk(d, s, u.template, WriteColumns(u.current, u.patch));
    }
  }

  lemma LogAppend(d: Deployment, s: State, slot: Slot, e: Entry, overrides: map<Slot, Override>)
    requires LogOk(d, s.overrides, s.log)
    requires Lookup(overrides, slot) == ApplyEntry(d, Lookup(s.overrides, slot), e)
    requires forall other :: other != slot ==> Lookup(overrides, other) == Lookup(s.overrides, other)
    ensures LogOk(d, overrides, Logged(s, slot, e))
  {}

  /** A save accepted against an older default is still complete for the current one. */
  lemma AcceptedSaveIsComplete(d: Deployment, now: Row, read: Row, seen: Option<Override>, r: SaveRequest)
    requires NotNewer(read, now) && ContentOk(read) && ContentOk(now) && SaveAccepted(d, read, seen, r)
    ensures OverrideOk(d, now, Upsert(seen, MergedSubject(read, seen, r), MergedBody(read, seen, r).value, r))
  {
    SameContractSameRequired(read, now);
  }

  lemma SaveOverrides(d: Deployment, s: State, slot: Slot, r: SaveRequest, default: Row)
    requires RowsOk(s.rows) && OverridesOk(d, s.rows, s.overrides) && Loaded(ViewOf(s), slot, default)
    ensures OverridesOk(d, s.rows, SaveEffect(d, s, slot, r, default, Lookup(s.overrides, slot)).overrides)
  {
    var seen := Lookup(s.overrides, slot);
    if SaveAccepted(d, default, seen, r) {
      AcceptedSaveIsComplete(d, s.rows[slot.template], default, seen, r);
    }
  }

  lemma FinishSaveData(d: Deployment, seed: Rows, s: State, x: TxnId)
    requires DataOk(d, seed, s.rows, s.events, s.overrides, s.log)
    requires x in s.txns ==> TxnOk(d, ViewOf(s), x, s.txns[x])
    ensures var s' := DoFinishSave(d, s, x); DataOk(d, seed, s'.rows, s'.events, s'.overrides, s'.log)
  {
    if x in s.txns && s.txns[x].SaveRead? {
      var v := s.txns[x];
      SaveOverrides(d, s, v.slot, v.request, v.default);
      SaveEffectIsLocal(d, s, v.slot, v.request, v.default, v.seen);
      LogAppend(d, s, v.slot, Saved(v.request, v.default),
                SaveEffect(d, s, v.slot, v.request, v.default, v.seen).overrides);
    }
  }

  lemma FewerOverrides(d: Deployment, rows: Rows, overrides: map<Slot, Override>, slot: Slot)
    requires OverridesOk(d, rows, overrides)
    ensures OverridesOk(d, rows, overrides - {slot})
  {}

  lemma ResetKeepsLog(d: Deployment, s: State, slot: Slot)
    requires LogOk(d, s.overrides, s.log)
    ensures LogOk(d, s.overrides - {slot}, Logged(s, slot, Reset))
  {
    LogAppend(d, s, slot, Reset, s.overrides - {slot});
  }

  lemma FinishResetData(d: Deployment, seed: Rows, s: State, x: TxnId)
    requires DataOk(d, seed, s.rows, s.events, s.overrides, s.log)
    ensures var s' := DoFinishReset(s, x); DataOk(d, seed, s'.rows, s'.events, s'.overrides, s'.log)
  {
    if x in s.txns && s.txns[x].ResetLocked? {
      var slot := s.txns[x].slot;
      FewerOverrides(d, s.rows, s.overrides, slot);
      ResetKeepsLog(d, s, slot);
    }
  }

  predicate IsQuiet(step: Step) {
    !step.Create? && !step.CommitUpdate? && !step.FinishSave? && !step.FinishReset?
  }

  ghost predicate SameData(s: State, s': State) {
    s'.rows == s.rows && s'.events == s.events && s'.overrides == s.overrides && s'.log == s.log
  }

  lemma LoadsLeaveData(d: Deployment, s: State, step: Step)
    requires step.LoadForUpdate? || step.LoadForSave? || step.LoadForReset?
    ensures SameData(s, Apply(d, s, step))
  {
    hide UpdateAllowed, Licensed, Begin;
    forall x, txn ensures SameData(s, Begin(s, x, txn)) {
      BeginLeavesData(s, x, txn);
    }
  }

  lemma BeginLeavesData(s: State, x: TxnId, txn: Txn)
    ensures SameData(s, Begin(s, x, txn))
  {}

  lemma EndLeavesData(s: State, x: TxnId)
    ensures SameData(s, End(s, x))
  {}

  lemma LocksLeaveData(d: Deployment, s: State, step: Step)
    requires step.WriteUpdate? || step.LockSave? || step.ReadSave? || step.LockReset?
    ensures SameData(s, Apply(d, s, step))
  {}

  /** Only creations and the three kinds of commit touch committed data. */
  lemma QuietStepsLeaveData(d: Deployment, s: State, step: Step)
    requires IsQuiet(step)
    ensures SameData(s, Apply(d, s, step))
  {
    if step.LoadForUpdate? || step.LoadForSave? || step.LoadForReset? {
      LoadsLeaveData(d, s, step);
    } else if step.Abort? {
      EndLeavesData(s, step.txn);
    } else if !step.Entitle? {
      LocksLeaveData(d, s, step);
    }
  }

  lemma StepData(d: Deployment, seed: Rows, s: State, step: Step)
    requires DataOk(d, seed, s.rows, s.events, s.overrides, s.log)
    requires !step.Create? && !step.Entitle? && step.txn in s.txns ==> TxnOk(d, ViewOf(s), step.txn, s.txns[step.txn])
    ensures var s' := Apply(d, s, step); DataOk(d, seed, s'.rows, s'.events, s'.overrides, s'.log)
  {
    hide DataOk, TxnOk, DoCreate, DoCommitUpdate, DoFinishSave, DoFinishReset;
    match step {
      case Create(t, row, known) => CreateData(d, seed, s, t, row, known);
      case CommitUpdate(x) => CommitUpdateData(d, seed, s, x);
      case FinishSave(x) => FinishSaveData(d, seed, s, x);
      case FinishReset(x) => FinishResetData(d, seed, s, x);
      case _ => QuietStepsLeaveData(d, s, step);
    }
  }

  // ----- Runs -----

  /** Every interleaving from the seeded state keeps the invariant. */
  lemma {:induction false} RunKeeps(d: Deployment, seed: Rows, steps: seq<Step>)
    requires SeedOk(seed)
    ensures Inv(d, seed, Run(d, Start(seed), steps))
  {
    if steps != [] {
      var s := Run(d, Start(seed), steps[..|steps| - 1]);
      RunKeeps(d, seed, steps[..|steps| - 1]);
      StepData(d, seed, s, steps[|steps| - 1]);
      StepTxns(d, s, steps[|steps| - 1]);
    }
  }

  /** The two facts of the invariant that speak of one slot. */
  lemma RunKeepsSlot(d: Deployment, seed: Rows, steps: seq<Step>, slot: Slot)
    requires SeedOk(seed)
    ensures var s := Run(d, Start(seed), steps);
            && Lookup(s.overrides, slot) == Fold(d, LogOf(s, slot))
            && (slot in s.overrides ==>
                  slot.template in s.rows && OverrideOk(d, s.rows[slot.template], s.overrides[slot]))
  {
    RunKeeps(d, seed, steps);
  }

  /** The facts that speak of one template. */
  lemma RunKeepsTemplate(d: Deployment, seed: Rows, steps: seq<Step>, t: TemplateId)
    requires SeedOk(seed) && t in Run(d, Start(seed), steps).rows
    ensures var s := Run(d, Start(seed), steps);
            ContentOk(s.rows[t]) && Chain(Lookup(seed, t), EventsOf(s, t), Audit(s.rows[t]))
  {
    RunKeeps(d, seed, steps);
  }
}
