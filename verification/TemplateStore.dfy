/** Platform defaults, tenant overrides and the requests that change them, as a machine
    whose steps are the database statements and commits of interleaved transactions. */
module TemplateStore {
  import opened Values
  import opened PlaceholderText
  import opened TemplateValidation
  import UsageCounts

  type TemplateId = nat
  type TenantId = nat
  type TxnId = nat
  type OfferingId = nat

  datatype Slot = Slot(tenant: TenantId, template: TemplateId)

  /** What a deployment fixes: the `\w` of its regular expressions and the digest that
      turns a slot into an advisory lock key. Two slots may share a key. */
  datatype Deployment = Deployment(word: char -> bool, lockKey: Slot -> int)

  /** The category of a template: one for each offering and kind. */
  datatype Category = Category(offering: OfferingId, kind: string)

  datatype Row = Row(
    offering: OfferingId, code: string, kind: string, name: string, description: string,
    subject: Option<string>, body: string, placeholders: seq<Placeholder>,
    sortOrder: nat, isActive: bool, version: nat, metadata: map<string, string>)

  /** The fields of an update request; `None` is a field the request leaves out. */
  datatype Patch = Patch(
    expectedVersion: nat,
    name: Option<string>, description: Option<string>,
    subject: Option<Option<string>>, body: Option<string>,
    placeholders: Option<seq<Placeholder>>, sortOrder: Option<nat>)

  datatype Field = Name | Description | Subject | Body | Placeholders | SortOrder

  datatype Event =
    | Created(after: Row)
    | Updated(before: Row, after: Row, changed: set<Field>)

  /** A tenant's complete snapshot of a template. */
  datatype Override = Override(subject: Option<string>, body: string,
                               metadata: Option<map<string, string>>, isActive: bool)

  datatype SaveRequest = SaveRequest(subject: Option<Option<string>>, body: Option<Option<string>>,
                                     metadata: Option<map<string, string>>, isActive: Option<bool>)

  datatype Effective = Effective(subject: Option<string>, body: string, metadata: map<string, string>,
                                 isActive: bool, isCustomized: bool)

  /** A finished request on a slot, with the default it was merged against. */
  datatype Entry =
    | Saved(request: SaveRequest, default: Row)
    | Reset

  datatype Txn =
    | Updating(template: TemplateId, patch: Patch, current: Row)
    | UpdateWritten(template: TemplateId, patch: Patch, current: Row)
    | Saving(slot: Slot, request: SaveRequest, default: Row)
    | SaveLocked(slot: Slot, request: SaveRequest, default: Row)
    | SaveRead(slot: Slot, request: SaveRequest, default: Row, seen: Option<Override>)
    | Resetting(slot: Slot)
    | ResetLocked(slot: Slot)

  type Entitlements = set<UsageCounts.Entitlement>

  /** `categories` are the active ones. `log` records, per slot, the requests in the order
      they finished; it is read only by the specification. */
  datatype State = State(
    entitlements: Entitlements,
    categories: set<Category>,
    rows: map<TemplateId, Row>,
    events: map<TemplateId, seq<Event>>,
    rowLocks: map<TemplateId, TxnId>,
    overrides: map<Slot, Override>,
    slotLocks: map<int, TxnId>,
    txns: map<TxnId, Txn>,
    log: map<Slot, seq<Entry>>)

  function Lookup<K, V>(m: map<K, V>, k: K): Option<V> {
    if k in m then Some(m[k]) else None
  }

  function EventsOf(s: State, t: TemplateId): seq<Event> { Lookup(s.events, t).GetOr([]) }

  function LogOf(s: State, slot: Slot): seq<Entry> { Lookup(s.log, slot).GetOr([]) }

  // ----- Effective values and overrides -----

  function Resolve(default: Row, o: Option<Override>): Effective {
    if o.None? then
      Effective(default.subject, default.body, default.metadata, default.isActive, false)
    else
      Effective(o.value.subject, o.value.body, default.metadata + o.value.metadata.GetOr(map[]),
                o.value.isActive, true)
  }

  function Upsert(existing: Option<Override>, subject: Option<string>, body: string, r: SaveRequest): Override {
    if existing.Some? then
      Override(subject, body,
               if r.metadata.Some? then r.metadata else existing.value.metadata,
               r.isActive.GetOr(existing.value.isActive))
    else Override(subject, body, r.metadata, r.isActive.GetOr(true))
  }

  /** Subject and body of a save: supplied fields, and the effective ones for the rest. */
  function MergedSubject(default: Row, seen: Option<Override>, r: SaveRequest): Option<string> {
    r.subject.GetOr(Resolve(default, seen).subject)
  }

  function MergedBody(default: Row, seen: Option<Override>, r: SaveRequest): Option<string> {
    r.body.GetOr(Some(Resolve(default, seen).body))
  }

  predicate SaveAccepted(d: Deployment, default: Row, seen: Option<Override>, r: SaveRequest) {
    var body := MergedBody(default, seen, r);
    body.Some? &&
    MissingFromOverride(d.word, default.placeholders, MergedSubject(default, seen, r), body.value) == {}
  }

  /** One request executed alone on the committed row of its slot. */
  function ApplyEntry(d: Deployment, o: Option<Override>, e: Entry): Option<Override> {
    match e
    case Reset => None
    case Saved(r, default) =>
      if SaveAccepted(d, default, o, r) then
        Some(Upsert(o, MergedSubject(default, o, r), MergedBody(default, o, r).value, r))
      else o
  }

  function Fold(d: Deployment, es: seq<Entry>): Option<Override> {
    if es == [] then None
    else ApplyEntry(d, Fold(d, es[..|es| - 1]), es[|es| - 1])
  }

  // ----- Platform updates -----

  predicate PlaceholderOk(p: Placeholder) {
    IsKey(STRICT, p.key) && |p.key| <= 64 && 1 <= |p.caption| <= 100 && |p.sampleValue| <= 1000
  }

  /** The shape of a placeholder in a request: a key of 1 to 64 lower-case letters, digits and
      underscores that begins with a letter, a caption, and a short sample. */
  lemma PlaceholderIs(p: Placeholder)
    ensures PlaceholderOk(p) <==>
            && 1 <= |p.key| <= 64 && 'a' <= p.key[0] <= 'z'
            && (forall i :: 1 <= i < |p.key| ==>
                  'a' <= p.key[i] <= 'z' || '0' <= p.key[i] <= '9' || p.key[i] == '_')
            && 1 <= |p.caption| <= 100 && |p.sampleValue| <= 1000
  {}

  /** Key to required flag, a later placeholder with the same key winning. */
  function Contract(ps: seq<Placeholder>): map<string, bool> {
    if ps == [] then map[]
    else Contract(ps[..|ps| - 1])[ps[|ps| - 1].key := ps[|ps| - 1].required]
  }

  predicate ContentOk(r: Row) {
    && (forall p :: p in r.placeholders ==> PlaceholderOk(p))
    && Validate(r.subject, r.body, r.placeholders) == Accepted
  }

  /** What the statement writes: only the patched columns and the version counter. */
  function WriteColumns(r: Row, p: Patch): Row {
    r.(name := p.name.GetOr(r.name),
       description := p.description.GetOr(r.description),
       subject := p.subject.GetOr(r.subject),
       body := p.body.GetOr(r.body),
       placeholders := p.placeholders.GetOr(r.placeholders),
       sortOrder := p.sortOrder.GetOr(r.sortOrder),
       version := r.version + 1)
  }

  /** Each column is the patch's value if the request has one, and as it was otherwise. */
  ghost predicate WrittenAs(was: Row, p: Patch, row: Row) {
    && row.name == (if p.name.Some? then p.name.value else was.name)
    && row.description == (if p.description.Some? then p.description.value else was.description)
    && row.subject == (if p.subject.Some? then p.subject.value else was.subject)
    && row.body == (if p.body.Some? then p.body.value else was.body)
    && row.placeholders == (if p.placeholders.Some? then p.placeholders.value else was.placeholders)
    && row.sortOrder == (if p.sortOrder.Some? then p.sortOrder.value else was.sortOrder)
    && row.code == was.code && row.kind == was.kind && row.offering == was.offering
    && row.isActive == was.isActive && row.metadata == was.metadata && row.version == was.version + 1
  }

  lemma WrittenIs(was: Row, p: Patch)
    ensures WrittenAs(was, p, WriteColumns(was, p))
  {}

  predicate UpdateAllowed(current: Row, p: Patch) {
    var placeholders := p.placeholders.GetOr(current.placeholders);
    && current.version == p.expectedVersion
    && (forall q :: q in placeholders ==> PlaceholderOk(q))
    && Contract(placeholders) == Contract(current.placeholders)
    && Validate(p.subject.GetOr(current.subject), p.body.GetOr(current.body), placeholders) == Accepted
  }

  /** The audited columns of a row. */
  function Audit(r: Row): Row { r.(metadata := map[]) }

  function If(b: bool, f: Field): set<Field> { if b then {f} else {} }

  /** The audit event, computed from the row as it was loaded. */
  function UpdateEvent(current: Row, p: Patch): Event {
    var after := Audit(current).(
      name := p.name.GetOr(current.name),
      description := p.description.GetOr(current.description),
      subject := p.subject.GetOr(current.subject),
      body := p.body.GetOr(current.body),
      placeholders := p.placeholders.GetOr(current.placeholders),
      sortOrder := p.sortOrder.GetOr(current.sortOrder),
      version := current.version + 1);
    Updated(Audit(current), after,
      If(p.name.Some? && p.name.value != current.name, Name)
      + If(p.description.Some? && p.description.value != current.description, Description)
      + If(p.subject.Some? && p.subject.value != current.subject, Subject)
      + If(p.body.Some? && p.body.value != current.body, Body)
      + If(p.placeholders.Some? && p.placeholders.value != current.placeholders, Placeholders)
      + If(p.sortOrder.Some? && p.sortOrder.value != current.sortOrder, SortOrder))
  }

  // ----- Steps -----

  /** Some entitlement of the tenant to the offering of the template's category is active and
      within its time. */
  predicate Licensed(entitlements: Entitlements, tenant: TenantId, row: Row, now: int) {
    exists e :: e in entitlements && e.tenant == tenant && e.offering == row.offering && UsageCounts.ActiveAt(e, now)
  }

  /** `known`: the offering exists. `Entitle` stands for every request that grants, suspends,
      resumes, ends or removes entitlements, of any tenants. */
  datatype Step =
    | Create(template: TemplateId, row: Row, known: bool)
    | Entitle(entitlements: Entitlements)
    | LoadForUpdate(txn: TxnId, template: TemplateId, patch: Patch)
    | WriteUpdate(txn: TxnId)
    | CommitUpdate(txn: TxnId)
    | LoadForSave(txn: TxnId, slot: Slot, request: SaveRequest, now: int)
    | LockSave(txn: TxnId)
    | ReadSave(txn: TxnId)
    | FinishSave(txn: TxnId)
    | LoadForReset(txn: TxnId, slot: Slot, now: int)
    | LockReset(txn: TxnId)
    | FinishReset(txn: TxnId)
    | Abort(txn: TxnId)

  /** The end of a transaction: it is forgotten and its locks are free. */
  function End(s: State, x: TxnId): State {
    s.(txns := s.txns - {x},
       rowLocks := map t | t in s.rowLocks && s.rowLocks[t] != x :: s.rowLocks[t],
       slotLocks := map k | k in s.slotLocks && s.slotLocks[k] != x :: s.slotLocks[k])
  }

  function Begin(s: State, x: TxnId, txn: Txn): State {
    if x in s.txns then s else s.(txns := s.txns[x := txn])
  }

  function CategoryOf(row: Row): Category { Category(row.offering, row.kind) }

  /** How a row starts: active, at version 1, without metadata. */
  predicate IsNew(row: Row) { row.version == 1 && row.isActive && row.metadata == map[] }

  /** The offering exists, the content is valid and the code is new. */
  predicate CanCreate(rows: map<TemplateId, Row>, row: Row, known: bool) {
    known && ContentOk(row) && forall u :: u in rows ==> rows[u].code != row.code
  }

  /** The category is created or reactivated together with the template, or neither is. */
  function DoCreate(s: State, t: TemplateId, row: Row, known: bool): State {
    if t !in s.rows && IsNew(row) && CanCreate(s.rows, row, known)
    then s.(categories := s.categories + {CategoryOf(row)}, rows := s.rows[t := row],
            events := s.events[t := EventsOf(s, t) + [Created(Audit(row))]])
    else s
  }

  function DoLoadForUpdate(s: State, x: TxnId, t: TemplateId, p: Patch): State {
    if t in s.rows && UpdateAllowed(s.rows[t], p) then Begin(s, x, Updating(t, p, s.rows[t])) else s
  }

  /** The conditional UPDATE: waits while another transaction holds the row, fails when
      the committed version is not the expected one. */
  function DoWriteUpdate(s: State, x: TxnId): State {
    if x in s.txns && s.txns[x].Updating? then
      var u := s.txns[x];
      if u.template in s.rowLocks || u.template !in s.rows then s
      else if s.rows[u.template].version == u.patch.expectedVersion then
        s.(rowLocks := s.rowLocks[u.template := x],
           txns := s.txns[x := UpdateWritten(u.template, u.patch, u.current)])
      else End(s, x)
    else s
  }

  /** What a committed update leaves: the written columns and the audit event. */
  function UpdateEffect(s: State, t: TemplateId, p: Patch, current: Row): State
    requires t in s.rows
  {
    s.(rows := s.rows[t := WriteColumns(s.rows[t], p)],
       events := s.events[t := EventsOf(s, t) + [UpdateEvent(current, p)]])
  }

  function DoCommitUpdate(s: State, x: TxnId): State {
    if x in s.txns && s.txns[x].UpdateWritten? && s.txns[x].template in s.rows then
      var u := s.txns[x];
      End(UpdateEffect(s, u.template, u.patch, u.current), x)
    else s
  }

  function DoLoadForSave(s: State, x: TxnId, slot: Slot, r: SaveRequest, now: int): State {
    if slot.template in s.rows && Licensed(s.entitlements, slot.tenant, s.rows[slot.template], now)
    then Begin(s, x, Saving(slot, r, s.rows[slot.template])) else s
  }

  function DoLockSave(d: Deployment, s: State, x: TxnId): State {
    if x in s.txns && s.txns[x].Saving? && d.lockKey(s.txns[x].slot) !in s.slotLocks then
      var v := s.txns[x];
      s.(slotLocks := s.slotLocks[d.lockKey(v.slot) := x],
         txns := s.txns[x := SaveLocked(v.slot, v.request, v.default)])
    else s
  }

  function DoReadSave(s: State, x: TxnId): State {
    if x in s.txns && s.txns[x].SaveLocked? then
      var v := s.txns[x];
      s.(txns := s.txns[x := SaveRead(v.slot, v.request, v.default, Lookup(s.overrides, v.slot))])
    else s
  }

  function Logged(s: State, slot: Slot, e: Entry): map<Slot, seq<Entry>> {
    s.log[slot := LogOf(s, slot) + [e]]
  }

  /** Validate and upsert, or refuse. The upsert reads the slot again. */
  function SaveEffect(d: Deployment, s: State, slot: Slot, r: SaveRequest, default: Row,
                      seen: Option<Override>): State {
    var log := Logged(s, slot, Saved(r, default));
    if SaveAccepted(d, default, seen, r) then
      var subject, body := MergedSubject(default, seen, r), MergedBody(default, seen, r).value;
      var o := Upsert(Lookup(s.overrides, slot), subject, body, r);
      s.(overrides := s.overrides[slot := o], log := log)
    else s.(log := log)
  }

  function DoFinishSave(d: Deployment, s: State, x: TxnId): State {
    if x in s.txns && s.txns[x].SaveRead? then
      var v := s.txns[x];
      End(SaveEffect(d, s, v.slot, v.request, v.default, v.seen), x)
    else s
  }

  function DoLoadForReset(s: State, x: TxnId, slot: Slot, now: int): State {
    if slot.template in s.rows && Licensed(s.entitlements, slot.tenant, s.rows[slot.template], now)
    then Begin(s, x, Resetting(slot)) else s
  }

  function DoLockReset(d: Deployment, s: State, x: TxnId): State {
    if x in s.txns && s.txns[x].Resetting? && d.lockKey(s.txns[x].slot) !in s.slotLocks then
      s.(slotLocks := s.slotLocks[d.lockKey(s.txns[x].slot) := x],
         txns := s.txns[x := ResetLocked(s.txns[x].slot)])
    else s
  }

  function ResetEffect(s: State, slot: Slot): State {
    s.(overrides := s.overrides - {slot}, log := Logged(s, slot, Reset))
  }

  function DoFinishReset(s: State, x: TxnId): State {
    if x in s.txns && s.txns[x].ResetLocked? then End(ResetEffect(s, s.txns[x].slot), x) else s
  }

  /** One step of one transaction; a step that is not enabled changes nothing. */
  function Apply(d: Deployment, s: State, step: Step): State {
    match step
    case Create(t, row, known) => DoCreate(s, t, row, known)
    case Entitle(entitlements) => s.(entitlements := entitlements)
    case LoadForUpdate(x, t, p) => DoLoadForUpdate(s, x, t, p)
    case WriteUpdate(x) => DoWriteUpdate(s, x)
    case CommitUpdate(x) => DoCommitUpdate(s, x)
    case LoadForSave(x, slot, r, now) => DoLoadForSave(s, x, slot, r, now)
    case LockSave(x) => DoLockSave(d, s, x)
    case ReadSave(x) => DoReadSave(s, x)
    case FinishSave(x) => DoFinishSave(d, s, x)
    case LoadForReset(x, slot, now) => DoLoadForReset(s, x, slot, now)
    case LockReset(x) => DoLockReset(d, s, x)
    case FinishReset(x) => DoFinishReset(s, x)
    case Abort(x) => End(s, x)
  }

  /** Any interleaving is a sequence of steps. */
  function Run(d: Deployment, s: State, steps: seq<Step>): State {
    if steps == [] then s
    else Apply(d, Run(d, s, steps[..|steps| - 1]), steps[|steps| - 1])
  }

  /** The state before the first request: seeded rows at version 1 in active categories. */
  function Start(seed: map<TemplateId, Row>): State {
    State({}, set t | t in seed :: CategoryOf(seed[t]), seed, map[], map[], map[], map[], map[], map[])
  }

  ghost predicate SeedOk(seed: map<TemplateId, Row>) {
    forall t :: t in seed ==> ContentOk(seed[t]) && seed[t].version == 1
  }
}
