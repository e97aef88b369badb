/** The statements of the template requests on the tables they change. Each is one step of
    the template machine, so the theorems about its runs hold of the tables after any number
    of them. A statement that waits for a lock is called once it has it. */
module TemplateDatabase {
  import opened Values
  import opened PlaceholderText
  import opened TemplateValidation
  import opened TemplateStore
  import opened TemplateSafety
  import opened TemplateGuarantees
  import UsageCounts

  /** The loop that maps each declared key to its required flag. */
  method BuildContract(ps: seq<Placeholder>) returns (contract: map<string, bool>)
    ensures contract == Contract(ps)
    ensures forall key :: key in contract <==> exists p :: p in ps && p.key == key
    ensures forall i :: 0 <= i < |ps| && (forall j :: i < j < |ps| ==> ps[j].key != ps[i].key) ==>
              ps[i].key in contract && contract[ps[i].key] == ps[i].required
  {
    contract := map[];
    for i := 0 to |ps|
      invariant contract == Contract(ps[..i])
    {
      assert ps[..i + 1][..i] == ps[..i];
      contract := contract[ps[i].key := ps[i].required];
    }
    assert ps[..|ps|] == ps;
    ContractIs(ps);
  }

  /** Every required key of the current default occurs in what the tenant sees. */
  ghost predicate Complete(s: State, slot: Slot) {
    slot.template in s.rows &&
    var e := EffectiveOf(s, slot);
    forall p :: p in s.rows[slot.template].placeholders && p.required ==> Occurs(Content(e.subject, e.body), p.key)
  }

  /** Exactly the locks of `x` are gone. */
  ghost predicate Freed<K(!new)>(before: map<K, TxnId>, after: map<K, TxnId>, x: TxnId) {
    && (forall k :: k in after <==> k in before && before[k] != x)
    && (forall k :: k in after ==> after[k] == before[k])
  }

  /** No other transaction is between taking this slot's lock and ending. */
  ghost predicate Alone(d: Deployment, txns: map<TxnId, Txn>, x: TxnId, slot: Slot) {
    forall y :: y in txns && y != x && (txns[y].SaveLocked? || txns[y].SaveRead? || txns[y].ResetLocked?) ==>
      d.lockKey(txns[y].slot) != d.lockKey(slot)
  }

  lemma ReachedNext(d: Deployment, seed: Rows, history: seq<Step>, step: Step)
    ensures Reached(d, seed, history + [step]) == Apply(d, Reached(d, seed, history), step)
  {
    assert (history + [step])[..|history|] == history;
  }

  lemma ReachedIsComplete(d: Deployment, seed: Rows, history: seq<Step>, slot: Slot)
    requires Wordlike(d.word) && SeedOk(seed) && slot.template in Reached(d, seed, history).rows
    ensures Complete(Reached(d, seed, history), slot)
  {
    var s := Reached(d, seed, history);
    forall p | p in s.rows[slot.template].placeholders && p.required
      ensures var e := EffectiveOf(s, slot); Occurs(Content(e.subject, e.body), p.key)
    {
      EffectiveKeepsRequired(d, seed, history, slot, p);
    }
  }

  /** A transaction that holds a slot's lock is the only one that does. */
  lemma HolderIsAlone(d: Deployment, seed: Rows, history: seq<Step>, x: TxnId, slot: Slot)
    requires SeedOk(seed) && Holds(d, ViewOf(Reached(d, seed, history)), x, slot)
    ensures Alone(d, Reached(d, seed, history).txns, x, slot)
  {
    var s := Reached(d, seed, history);
    RunKeeps(d, seed, history);
    forall y | y in s.txns && y != x && (s.txns[y].SaveLocked? || s.txns[y].SaveRead? || s.txns[y].ResetLocked?)
      ensures d.lockKey(s.txns[y].slot) != d.lockKey(slot)
    {
      assert TxnOk(d, ViewOf(s), y, s.txns[y]);
    }
  }

  // ----- What a transaction knows of the tables at its stage -----

  lemma UpdatingKnows(d: Deployment, seed: Rows, history: seq<Step>, x: TxnId)
    requires SeedOk(seed) && x in Reached(d, seed, history).txns
    ensures var s := Reached(d, seed, history); s.txns[x].Updating? ==> s.txns[x].template in s.rows
    ensures var s := Reached(d, seed, history);
            s.txns[x].Updating? && s.txns[x].patch.expectedVersion == s.rows[s.txns[x].template].version ==>
              s.txns[x].current == s.rows[s.txns[x].template]
  {
    var s := Reached(d, seed, history);
    RunKeeps(d, seed, history);
    assert TxnOk(d, ViewOf(s), x, s.txns[x]);
  }

  lemma WrittenKnows(d: Deployment, seed: Rows, history: seq<Step>, x: TxnId)
    requires SeedOk(seed) && x in Reached(d, seed, history).txns && Reached(d, seed, history).txns[x].UpdateWritten?
    ensures var s := Reached(d, seed, history);
            var u := s.txns[x];
            && u.template in s.rows && u.current == s.rows[u.template] && UpdateAllowed(u.current, u.patch)
  {
    var s := Reached(d, seed, history);
    RunKeeps(d, seed, history);
    assert TxnOk(d, ViewOf(s), x, s.txns[x]);
  }

  lemma SlotKnows(d: Deployment, seed: Rows, history: seq<Step>, x: TxnId)
    requires SeedOk(seed) && x in Reached(d, seed, history).txns
    ensures var s := Reached(d, seed, history);
            var v := s.txns[x];
            && (v.SaveLocked? || v.SaveRead? || v.ResetLocked? ==>
                  v.slot.template in s.rows && Alone(d, s.txns, x, v.slot))
            && (v.SaveRead? ==> v.seen == Lookup(s.overrides, v.slot))
  {
    var s := Reached(d, seed, history);
    RunKeeps(d, seed, history);
    assert TxnOk(d, ViewOf(s), x, s.txns[x]);
    if s.txns[x].SaveLocked? || s.txns[x].SaveRead? || s.txns[x].ResetLocked? {
      HolderIsAlone(d, seed, history, x, s.txns[x].slot);
    }
  }

  class Database {
    const d: Deployment
    ghost const seed: Rows
    var entitlements: Entitlements
    var categories: set<Category>
    var rows: map<TemplateId, Row>
    var events: map<TemplateId, seq<Event>>
    var rowLocks: map<TemplateId, TxnId>
    var overrides: map<Slot, Override>
    var slotLocks: map<int, TxnId>
    var txns: map<TxnId, Txn>
    ghost var log: map<Slot, seq<Entry>>
    ghost var history: seq<Step>

    ghost function Contents(): State
      reads this
    {
      State(entitlements, categories, rows, events, rowLocks, overrides, slotLocks, txns, log)
    }

    /** The tables are what some run of statements has made of the seeded rows. */
    ghost predicate Valid()
      reads this
    {
      Wordlike(d.word) && SeedOk(seed) && Contents() == Reached(d, seed, history)
    }

    lemma ValidKeepsInv()
      requires Valid()
      ensures Inv(d, seed, Contents())
    {
      RunKeeps(d, seed, history);
    }

    constructor (d: Deployment, seed: map<TemplateId, Row>)
      requires Wordlike(d.word) && SeedOk(seed)
      ensures Valid() && this.d == d && this.seed == seed && history == []
    {
      this.d, this.seed := d, seed;
      entitlements, categories, rows := {}, set t | t in seed :: CategoryOf(seed[t]), seed;
      events, rowLocks, overrides, slotLocks, txns, log := map[], map[], map[], map[], map[], map[];
      history := [];
    }

    /** What has happened was one step. */
    ghost method Advance(before: State, step: Step)
      requires Wordlike(d.word) && SeedOk(seed) && before == Reached(d, seed, history)
      requires Contents() == Apply(d, before, step)
      modifies this`history
      ensures Valid() && history == old(history) + [step]
    {
      hide Reached;
      ReachedNext(d, seed, history, step);
      history := history + [step];
    }

    /** The end of a transaction: it is forgotten and the locks it held are free. */
    method Release(x: TxnId)
      modifies this`txns, this`rowLocks, this`slotLocks
      ensures Contents() == End(old(Contents()), x)
      ensures txns == old(txns) - {x}
      ensures Freed(old(rowLocks), rowLocks, x) && Freed(old(slotLocks), slotLocks, x)
    {
      txns := txns - {x};
      rowLocks := map t | t in rowLocks && rowLocks[t] != x :: rowLocks[t];
      slotLocks := map k | k in slotLocks && slotLocks[k] != x :: slotLocks[k];
    }

    /** What the tenant sees of a template now. */
    method EffectiveTemplate(slot: Slot) returns (e: Effective)
      requires Valid() && slot.template in rows
      ensures e == EffectiveOf(Contents(), slot) && Complete(Contents(), slot)
      ensures e.isCustomized <==> slot in overrides
      ensures e.subject == if slot in overrides then overrides[slot].subject else rows[slot.template].subject
      ensures e.body == if slot in overrides then overrides[slot].body else rows[slot.template].body
      ensures e.isActive == if slot in overrides then overrides[slot].isActive else rows[slot.template].isActive
      ensures forall key :: Lookup(e.metadata, key) ==
                if slot in overrides && overrides[slot].metadata.Some? && key in overrides[slot].metadata.value
                then Some(overrides[slot].metadata.value[key]) else Lookup(rows[slot.template].metadata, key)
    {
      ReachedIsComplete(d, seed, history, slot);
      EffectiveIs(rows[slot.template], Lookup(overrides, slot));
      hide Resolve, Reached, Complete;
      e := Resolve(rows[slot.template], if slot in overrides then Some(overrides[slot]) else None);
    }

    /** What creating a default checks: the offering, the content, and that the code is new. */
    method MayCreate(row: Row, known: bool) returns (ok: bool)
      ensures ok <==> CanCreate(rows, row, known)
      ensures ok <==>
              && known && (forall p :: p in row.placeholders ==> PlaceholderOk(p))
              && Validate(row.subject, row.body, row.placeholders) == Accepted
              && forall u :: u in rows ==> rows[u].code != row.code
    {
      if !known { return false; }
      if exists p :: p in row.placeholders && !PlaceholderOk(p) { return false; }
      if Validate(row.subject, row.body, row.placeholders) != Accepted { return false; }
      ok := !exists u :: u in rows && rows[u].code == row.code;
    }

    /** Inserts an active default at version 1, and its category with it. */
    method CreateTemplate(t: TemplateId, row: Row, known: bool) returns (created: bool)
      requires Valid() && t !in rows && IsNew(row)
      modifies this
      ensures Valid() && history == old(history) + [Create(t, row, known)]
      ensures created <==>
              && known && ContentOk(row) && forall u :: u in old(rows) ==> old(rows)[u].code != row.code
      ensures rows == if created then old(rows)[t := row] else old(rows)
      ensures categories == if created then old(categories) + {Category(row.offering, row.kind)} else old(categories)
      ensures events == if created then old(events)[t := EventsOf(old(Contents()), t) + [Created(row)]]
                        else old(events)
    {
      hide Reached, Validate;
      ghost var before := Contents();
      created := MayCreate(row, known);
      if created {
        categories := categories + {CategoryOf(row)};
        events := events[t := Lookup(events, t).GetOr([]) + [Created(Audit(row))]];
        rows := rows[t := row];
      }
      Advance(before, Create(t, row, known));
    }

    /** Everything an update request checks before it writes. */
    method MayUpdate(t: TemplateId, p: Patch) returns (ok: bool)
      ensures ok <==> t in rows && UpdateAllowed(rows[t], p)
      ensures ok <==>
              && t in rows && rows[t].version == p.expectedVersion
              && var ps := if p.placeholders.Some? then p.placeholders.value else rows[t].placeholders;
              && (forall q :: q in ps ==> PlaceholderOk(q)) && Contract(ps) == Contract(rows[t].placeholders)
              && Validate(if p.subject.Some? then p.subject.value else rows[t].subject,
                          if p.body.Some? then p.body.value else rows[t].body, ps) == Accepted
    {
      if t !in rows || rows[t].version != p.expectedVersion { return false; }
      var current := rows[t];
      var placeholders := p.placeholders.GetOr(current.placeholders);
      if exists q :: q in placeholders && !PlaceholderOk(q) { return false; }
      var contract := BuildContract(current.placeholders);
      var updated := BuildContract(placeholders);
      if updated != contract { return false; }
      ok := Validate(p.subject.GetOr(current.subject), p.body.GetOr(current.body), placeholders) == Accepted;
    }

    method LoadForUpdate(x: TxnId, t: TemplateId, p: Patch) returns (ok: bool)
      requires Valid() && x !in txns
      modifies this
      ensures Valid() && history == old(history) + [Step.LoadForUpdate(x, t, p)]
      ensures ok <==> t in rows && UpdateAllowed(rows[t], p)
      ensures rows == old(rows) && overrides == old(overrides)
      ensures txns == if ok then old(txns)[x := Updating(t, p, rows[t])] else old(txns)
    {
      hide Reached, UpdateAllowed;
      ghost var before := Contents();
      ok := MayUpdate(t, p);
      if ok {
        txns := txns[x := Updating(t, p, rows[t])];
      }
      Advance(before, Step.LoadForUpdate(x, t, p));
    }

    /** The conditional UPDATE. Its row is written at the commit, under the row lock: until
        then the committed row is the one the request had loaded. */
    method UpdateIfVersion(x: TxnId) returns (updated: bool)
      requires Valid() && x in txns && txns[x].Updating? && txns[x].template !in rowLocks
      modifies this
      ensures Valid() && history == old(history) + [WriteUpdate(x)]
      ensures rows == old(rows) && overrides == old(overrides) && old(txns[x].template) in rows
      ensures updated <==> old(txns[x].patch.expectedVersion) == rows[old(txns[x].template)].version
      ensures updated ==>
                txns[x] == UpdateWritten(old(txns[x].template), old(txns[x].patch), rows[old(txns[x].template)])
      ensures !updated ==> x !in txns && Freed(old(rowLocks), rowLocks, x) && Freed(old(slotLocks), slotLocks, x)
      ensures updated ==> rowLocks == old(rowLocks)[old(txns[x].template) := x] && slotLocks == old(slotLocks)
    {
      UpdatingKnows(d, seed, history, x);
      hide Reached;
      ghost var before := Contents();
      var u := txns[x];
      updated := rows[u.template].version == u.patch.expectedVersion;
      if updated {
        rowLocks := rowLocks[u.template := x];
        txns := txns[x := UpdateWritten(u.template, u.patch, u.current)];
      } else {
        Release(x);
      }
      Advance(before, WriteUpdate(x));
    }

    /** Writes the patched columns and the audit event: the next version, valid, under the
        same contract, and the event says so. */
    method CommitUpdate(x: TxnId)
      requires Valid() && x in txns && txns[x].UpdateWritten?
      modifies this
      ensures Valid() && history == old(history) + [Step.CommitUpdate(x)]
      ensures var t := old(txns[x].template);
              && t in old(rows) && rows == old(rows)[t := WriteColumns(old(rows)[t], old(txns[x].patch))]
              && rows[t].version == old(rows)[t].version + 1 && ContentOk(rows[t])
              && Contract(rows[t].placeholders) == Contract(old(rows)[t].placeholders)
              && events == old(events)[t := EventsOf(old(Contents()), t)
                   + [Updated(old(rows)[t].(metadata := map[]), rows[t].(metadata := map[]),
                              Diff(old(rows)[t], rows[t]))]]
      ensures overrides == old(overrides) && x !in txns
      ensures Freed(old(rowLocks), rowLocks, x) && Freed(old(slotLocks), slotLocks, x)
      ensures WrittenAs(old(rows[txns[x].template]), old(txns[x].patch), rows[old(txns[x].template)])
    {
      hide Reached, End, Freed, WriteColumns, UpdateEvent, UpdateAllowed, ContentOk, Contract, Diff, WrittenAs;
      WrittenKnows(d, seed, history, x);
      AllowedUpdate(txns[x].current, txns[x].patch);
      WrittenIs(txns[x].current, txns[x].patch);
      AuditIs(txns[x].current, WriteColumns(txns[x].current, txns[x].patch));
      ghost var before := Contents();
      var u := txns[x];
      var t := u.template;
      var seen := if t in events then events[t] else [];
      events := events[t := seen + [UpdateEvent(u.current, u.patch)]];
      rows := rows[t := WriteColumns(rows[t], u.patch)];
      Release(x);
      Advance(before, Step.CommitUpdate(x));
    }

    /** The platform's requests on entitlements, whatever they are. */
    method ChangeEntitlements(rows': Entitlements)
      requires Valid()
      modifies this
      ensures Valid() && history == old(history) + [Entitle(rows')] && entitlements == rows'
      ensures rows == old(rows) && overrides == old(overrides) && txns == old(txns)
    {
      hide Reached;
      ghost var before := Contents();
      entitlements := rows';
      Advance(before, Entitle(rows'));
    }

    /** The template, if it is there and the tenant is entitled to it. */
    method EntitledTemplate(slot: Slot, now: int) returns (row: Option<Row>)
      ensures row.Some? <==>
              slot.template in rows && Licensed(entitlements, slot.tenant, rows[slot.template], now)
      ensures row.Some? <==>
              slot.template in rows
              && exists e :: e in entitlements && e.tenant == slot.tenant && e.offering == rows[slot.template].offering
                             && e.active && e.startsAt <= now && (e.endsAt.Some? ==> now < e.endsAt.value)
      ensures row.Some? ==> row.value == rows[slot.template]
    {
      if slot.template !in rows { return None; }
      var found := rows[slot.template];
      var granted := exists e :: e in entitlements && e.tenant == slot.tenant && e.offering == found.offering
                                 && UsageCounts.ActiveAt(e, now);
      row := if granted then Some(found) else None;
    }

    method LoadForSave(x: TxnId, slot: Slot, r: SaveRequest, now: int) returns (ok: bool)
      requires Valid() && x !in txns
      modifies this
      ensures Valid() && history == old(history) + [Step.LoadForSave(x, slot, r, now)]
      ensures ok <==> slot.template in rows && Licensed(entitlements, slot.tenant, rows[slot.template], now)
      ensures rows == old(rows) && overrides == old(overrides)
      ensures txns == if ok then old(txns)[x := Saving(slot, r, rows[slot.template])] else old(txns)
    {
      hide Reached, Licensed;
      ghost var before := Contents();
      var row := EntitledTemplate(slot, now);
      ok := row.Some?;
      if ok {
        txns := txns[x := Saving(slot, r, rows[slot.template])];
      }
      Advance(before, Step.LoadForSave(x, slot, r, now));
    }

    /** Takes the advisory lock of the slot: this transaction holds its key, every other lock
        is as it was, and no other request is past this point on the slot. */
    method LockOverrideSlot(x: TxnId)
      requires Valid() && x in txns && txns[x].Saving? && d.lockKey(txns[x].slot) !in slotLocks
      modifies this
      ensures Valid() && history == old(history) + [LockSave(x)]
      ensures var slot := old(txns[x].slot);
              && Holds(d, ViewOf(Contents()), x, slot) && Alone(d, txns, x, slot)
              && (forall k :: k in old(slotLocks) ==> k in slotLocks && slotLocks[k] == old(slotLocks)[k])
      ensures rowLocks == old(rowLocks) && rows == old(rows) && overrides == old(overrides)
      ensures txns == old(txns)[x := SaveLocked(old(txns[x].slot), old(txns[x].request), old(txns[x].default))]
    {
      hide Reached;
      ghost var before := Contents();
      var v := txns[x];
      slotLocks := slotLocks[d.lockKey(v.slot) := x];
      txns := txns[x := SaveLocked(v.slot, v.request, v.default)];
      Advance(before, LockSave(x));
      HolderIsAlone(d, seed, history, x, v.slot);
    }

    /** Reads the committed override. Nobody else can change it until this request ends. */
    method ReadOverride(x: TxnId) returns (seen: Option<Override>)
      requires Valid() && x in txns && txns[x].SaveLocked?
      modifies this
      ensures Valid() && history == old(history) + [ReadSave(x)]
      ensures seen == Lookup(overrides, old(txns[x].slot)) && Alone(d, txns, x, old(txns[x].slot))
      ensures rows == old(rows) && overrides == old(overrides)
      ensures txns == old(txns)[x := SaveRead(old(txns[x].slot), old(txns[x].request), old(txns[x].default), seen)]
    {
      SlotKnows(d, seed, history, x);
      hide Reached;
      ghost var before := Contents();
      var v := txns[x];
      seen := if v.slot in overrides then Some(overrides[v.slot]) else None;
      txns := txns[x := SaveRead(v.slot, v.request, v.default, seen)];
      Advance(before, ReadSave(x));
    }

    /** Updates the row of the slot field by field, or inserts one. */
    method UpsertOverride(slot: Slot, subject: Option<string>, body: string, r: SaveRequest)
      modifies this`overrides
      ensures overrides == old(overrides)[slot := Upsert(Lookup(old(overrides), slot), subject, body, r)]
      ensures var o, was := overrides[slot], Lookup(old(overrides), slot);
              && o.subject == subject && o.body == body
              && o.metadata == (if r.metadata.None? && was.Some? then was.value.metadata else r.metadata)
              && o.isActive == (if r.isActive.Some? then r.isActive.value
                                else if was.Some? then was.value.isActive else true)
    {
      if slot in overrides {
        var existing := overrides[slot];
        existing := existing.(subject := subject);
        existing := existing.(body := body);
        if r.metadata.Some? {
          existing := existing.(metadata := r.metadata);
        }
        if r.isActive.Some? {
          existing := existing.(isActive := r.isActive.value);
        }
        overrides := overrides[slot := existing];
      } else {
        var isActive := if r.isActive.Some? then r.isActive.value else true;
        overrides := overrides[slot := Override(subject, body, r.metadata, isActive)];
      }
    }

    /** The fields the request supplies and the effective ones for the rest, refused when the
        body is null or a required key is missing. */
    method Merge(default: Row, seen: Option<Override>, r: SaveRequest)
      returns (accepted: bool, subject: Option<string>, text: string)
      ensures accepted <==> SaveAccepted(d, default, seen, r)
      ensures accepted ==> subject == MergedSubject(default, seen, r) && Some(text) == MergedBody(default, seen, r)
      ensures accepted ==>
                && subject == (if r.subject.Some? then r.subject.value
                               else if seen.Some? then seen.value.subject else default.subject)
                && text == (if r.body.Some? then r.body.value.GetOr("")
                            else if seen.Some? then seen.value.body else default.body)
                && r.body != Some(None)
    {
      var current := Resolve(default, seen);
      subject := if r.subject.Some? then r.subject.value else current.subject;
      var body := if r.body.Some? then r.body.value else Some(current.body);
      if body.None? { return false, subject, ""; }
      text := body.value;
      accepted := MissingFromOverride(d.word, default.placeholders, subject, text) == {};
    }

    /** Merge, check the required placeholders, upsert, commit: whatever was committed since
        the request began, the tenant's text is complete for the current default. */
    method FinishSave(x: TxnId) returns (accepted: bool)
      requires Valid() && x in txns && txns[x].SaveRead?
      modifies this
      ensures Valid() && history == old(history) + [Step.FinishSave(x)]
      ensures accepted <==> old(SaveAccepted(d, txns[x].default, txns[x].seen, txns[x].request))
      ensures var v := old(txns[x]);
              && Complete(Contents(), v.slot)
              && Lookup(overrides, v.slot) == ApplyEntry(d, Lookup(old(overrides), v.slot), Saved(v.request, v.default))
              && (forall other :: other != v.slot ==> Lookup(overrides, other) == Lookup(old(overrides), other))
      ensures rows == old(rows) && x !in txns
      ensures Freed(old(rowLocks), rowLocks, x) && Freed(old(slotLocks), slotLocks, x)
    {
      SlotKnows(d, seed, history, x);
      hide Reached, Complete, MissingFromOverride, ContentOk, Alone, End, Freed;
      hide SaveAccepted, MergedSubject, MergedBody;
      ghost var before := Contents();
      var v := txns[x];
      var subject, body;
      accepted, subject, body := Merge(v.default, v.seen, v.request);
      if accepted {
        UpsertOverride(v.slot, subject, body, v.request);
      }
      log := log[v.slot := Lookup(log, v.slot).GetOr([]) + [Saved(v.request, v.default)]];
      Release(x);
      Advance(before, Step.FinishSave(x));
      ReachedIsComplete(d, seed, history, v.slot);
    }

    method LoadForReset(x: TxnId, slot: Slot, now: int) returns (ok: bool)
      requires Valid() && x !in txns
      modifies this
      ensures Valid() && history == old(history) + [Step.LoadForReset(x, slot, now)]
      ensures ok <==> slot.template in rows && Licensed(entitlements, slot.tenant, rows[slot.template], now)
      ensures rows == old(rows) && overrides == old(overrides)
      ensures txns == if ok then old(txns)[x := Resetting(slot)] else old(txns)
    {
      hide Reached, Licensed;
      ghost var before := Contents();
      var row := EntitledTemplate(slot, now);
      ok := row.Some?;
      if ok {
        txns := txns[x := Resetting(slot)];
      }
      Advance(before, Step.LoadForReset(x, slot, now));
    }

    /** The same lock as for a save. */
    method LockForReset(x: TxnId)
      requires Valid() && x in txns && txns[x].Resetting? && d.lockKey(txns[x].slot) !in slotLocks
      modifies this
      ensures Valid() && history == old(history) + [LockReset(x)]
      ensures var slot := old(txns[x].slot);
              && Holds(d, ViewOf(Contents()), x, slot) && Alone(d, txns, x, slot)
              && (forall k :: k in old(slotLocks) ==> k in slotLocks && slotLocks[k] == old(slotLocks)[k])
      ensures rowLocks == old(rowLocks) && rows == old(rows) && overrides == old(overrides)
      ensures txns == old(txns)[x := ResetLocked(old(txns[x].slot))]
    {
      hide Reached;
      ghost var before := Contents();
      var slot := txns[x].slot;
      slotLocks := slotLocks[d.lockKey(slot) := x];
      txns := txns[x := ResetLocked(slot)];
      Advance(before, LockReset(x));
      HolderIsAlone(d, seed, history, x, slot);
    }

    /** Deletes the row of the slot, if there is one, and commits: the tenant sees the
        current default again. */
    method FinishReset(x: TxnId) returns (deleted: bool)
      requires Valid() && x in txns && txns[x].ResetLocked?
      modifies this
      ensures Valid() && history == old(history) + [Step.FinishReset(x)]
      ensures deleted <==> old(txns[x].slot) in old(overrides)
      ensures var slot := old(txns[x].slot);
              && slot.template in rows && EffectiveOf(Contents(), slot) == Resolve(rows[slot.template], None)
              && overrides == old(overrides) - {slot}
      ensures rows == old(rows) && x !in txns
      ensures Freed(old(rowLocks), rowLocks, x) && Freed(old(slotLocks), slotLocks, x)
    {
      SlotKnows(d, seed, history, x);
      hide Reached, End, Freed, Alone;
      ghost var before := Contents();
      var slot := txns[x].slot;
      deleted := slot in overrides;
      overrides := overrides - {slot};
      log := log[slot := Lookup(log, slot).GetOr([]) + [Reset]];
      Release(x);
      Advance(before, Step.FinishReset(x));
    }

    /** A rollback leaves all committed data and every lock of other transactions. */
    method Rollback(x: TxnId)
      requires Valid()
      modifies this
      ensures Valid() && history == old(history) + [Abort(x)]
      ensures rows == old(rows) && overrides == old(overrides) && events == old(events) && txns == old(txns) - {x}
      ensures Freed(old(rowLocks), rowLocks, x) && Freed(old(slotLocks), slotLocks, x)
    {
      hide Reached;
      ghost var before := Contents();
      Release(x);
      Advance(before, Abort(x));
    }
  }
}
