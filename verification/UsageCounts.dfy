/** The tenant counts of the template listing: distinct tenants over two correlated queries. */
module UsageCounts {
  import opened Values

  type TenantId = nat
  type OfferingId = nat
  type TemplateId = nat

  datatype Entitlement = Entitlement(tenant: TenantId, offering: OfferingId, active: bool, startsAt: int,
                                     endsAt: Option<int>)

  datatype OverrideRow = OverrideRow(tenant: TenantId, template: TemplateId)

  predicate ActiveAt(e: Entitlement, now: int) {
    e.active && e.startsAt <= now && (e.endsAt.None? || e.endsAt.value > now)
  }

  /** The first query: tenants with an active entitlement to the offering. */
  function Eligible(rows: seq<Entitlement>, offering: OfferingId, now: int): set<TenantId> {
    set e | e in rows && e.offering == offering && ActiveAt(e, now) :: e.tenant
  }

  /** The second query: overrides of the template joined with the entitlements. */
  function Customized(rows: seq<Entitlement>, overrides: seq<OverrideRow>, offering: OfferingId, template: TemplateId,
                      now: int): set<TenantId>
  {
    set o, e | o in overrides && e in rows && e.tenant == o.tenant && e.offering == offering && o.template == template
               && ActiveAt(e, now) :: o.tenant
  }

  /** The listing subtracts one count from the other. */
  function InheritingCount(rows: seq<Entitlement>, overrides: seq<OverrideRow>, offering: OfferingId,
                           template: TemplateId, now: int): int
  {
    |Eligible(rows, offering, now)| - |Customized(rows, overrides, offering, template, now)|
  }

  predicate HasOverride(overrides: seq<OverrideRow>, t: TenantId, template: TemplateId) {
    OverrideRow(t, template) in overrides
  }

  /** Eligible is a tenant with an entitlement to the offering that is active, has begun and
      has not ended. */
  lemma EligibleIs(rows: seq<Entitlement>, offering: OfferingId, now: int, t: TenantId)
    ensures t in Eligible(rows, offering, now) <==>
            exists e :: e in rows && e.tenant == t && e.offering == offering && e.active && e.startsAt <= now
                          && (e.endsAt.Some? ==> now < e.endsAt.value)
  {}

  lemma CustomizedIs(rows: seq<Entitlement>, overrides: seq<OverrideRow>, offering: OfferingId, template: TemplateId,
                     now: int, t: TenantId)
    ensures t in Customized(rows, overrides, offering, template, now) <==>
            t in Eligible(rows, offering, now) && HasOverride(overrides, t, template)
  {}

  /** The difference counts exactly the eligible tenants without an override, so it is never
      negative, whatever rows of lapsed or foreign tenants the tables hold. */
  lemma CountsPartition(rows: seq<Entitlement>, overrides: seq<OverrideRow>, offering: OfferingId,
                        template: TemplateId, now: int)
    ensures var eligible := Eligible(rows, offering, now);
            var inheriting := set t | t in eligible && !HasOverride(overrides, t, template);
            && InheritingCount(rows, overrides, offering, template, now) == |inheriting| >= 0
            && Customized(rows, overrides, offering, template, now) == eligible - inheriting
  {
    var eligible := Eligible(rows, offering, now);
    var inheriting := set t | t in eligible && !HasOverride(overrides, t, template);
    var customized := Customized(rows, overrides, offering, template, now);
    forall t ensures t in customized <==> t in eligible - inheriting {
      CustomizedIs(rows, overrides, offering, template, now, t);
    }
    assert customized == eligible - inheriting;
    assert inheriting <= eligible;
  }

  /** A first save of an entitled tenant moves it from one count to the other; the sum stays. */
  lemma SaveMovesOne(rows: seq<Entitlement>, overrides: seq<OverrideRow>, offering: OfferingId, template: TemplateId,
                     now: int, t: TenantId)
    requires t in Eligible(rows, offering, now) && !HasOverride(overrides, t, template)
    ensures var after := overrides + [OverrideRow(t, template)];
            && |Customized(rows, after, offering, template, now)|
               == |Customized(rows, overrides, offering, template, now)| + 1
            && InheritingCount(rows, after, offering, template, now)
               == InheritingCount(rows, overrides, offering, template, now) - 1
  {
    var after := overrides + [OverrideRow(t, template)];
    var one := Customized(rows, overrides, offering, template, now);
    var two := Customized(rows, after, offering, template, now);
    forall u ensures u in two <==> u in one || u == t {
      CustomizedIs(rows, overrides, offering, template, now, u);
      CustomizedIs(rows, after, offering, template, now, u);
    }
    CustomizedIs(rows, overrides, offering, template, now, t);
    assert two == one + {t};
  }
}
