/**
 * The billing records: plans, features, the monthly limit a plan grants for a
 * feature, prices, subscriptions and the per-teacher usage ledger, with the
 * uniqueness constraints the database enforces and the queries the billing
 * views and helpers run against them.
 *
 * Identifiers are the rows' primary keys.  Timestamps are whole days (`int`).
 * PositiveIntegerField / PositiveSmallIntegerField become `nat`.
 */
module BillingModels {
  import opened Wrappers
  import opened Tables

  /** A tier of service; `trialMonths` defaults to 0. */
  datatype Plan = Plan(id: nat, code: string, name: string, description: string, trialMonths: nat)

  /** A capability whose use is gated and counted. */
  datatype Feature = Feature(id: nat, code: string, name: string)

  /** The monthly ceiling a plan grants for a feature; `None` is unlimited. */
  datatype PlanFeature = PlanFeature(plan: nat, feature: nat, monthlyLimit: Option<nat>)

  /** A teacher's running counter for one feature; `used` defaults to 0. */
  datatype FeatureUsage = FeatureUsage(teacher: nat, feature: nat, used: nat, lastResetAt: int)

  /** A way to pay for a plan; `currency` defaults to "BDT", `isActive` to true. */
  datatype Price = Price(id: nat, plan: nat, amount: nat, currency: string, durationMonths: nat, isActive: bool)

  /** Subscription.Status: the only three values the status column may hold. */
  datatype Status = Trial | Active | Expired

  /** The text stored in the status column for each choice. */
  function StatusText(s: Status): string
  {
    match s
    case Trial => "trial"
    case Active => "active"
    case Expired => "expired"
  }

  /**
   * `Subscription.Status(text)`: the choice a stored text stands for; text
   * outside the three choices is rejected.
   */
  function ParseStatus(text: string): (r: Option<Status>)
    ensures r.Some? ==> StatusText(r.value) == text
    ensures forall s :: StatusText(s) == text ==> r == Some(s)
  {
    if text == "trial" then Some(Trial)
    else if text == "active" then Some(Active)
    else if text == "expired" then Some(Expired)
    else None
  }

  /**
   * A teacher's subscription.  The owning teacher is the key of the
   * subscription table; `price` is the price row it was bought with
   * (prices are reference data the model never changes); `autoRenew`
   * defaults to true and both end dates may be null.
   */
  datatype Subscription = Subscription(
    plan: nat,
    price: Price,
    trialEndsAt: Option<int>,
    endsAt: Option<int>,
    status: Status,
    autoRenew: bool)
  {
    /**
     * What every subscription the views write satisfies: the price belongs
     * to the plan, an end date is set, and a trial carries its trial end.
     */
    predicate WellFormed()
    {
      && price.plan == plan
      && endsAt.Some?
      && (status == Trial ==> trialEndsAt.Some?)
    }
  }

  /** The read-mostly reference tables. */
  datatype Catalog = Catalog(
    plans: seq<Plan>,
    features: seq<Feature>,
    planFeatures: seq<PlanFeature>,
    prices: seq<Price>)

  /** The unique and unique_together constraints on the reference tables. */
  ghost predicate CatalogValid(cat: Catalog)
  {
    && UniqueKey(cat.plans, (p: Plan) => p.id)
    && UniqueKey(cat.plans, (p: Plan) => p.code)
    && UniqueKey(cat.features, (f: Feature) => f.id)
    && UniqueKey(cat.features, (f: Feature) => f.code)
    && UniqueKey(cat.planFeatures, (pf: PlanFeature) => (pf.plan, pf.feature))
    && UniqueKey(cat.prices, (p: Price) => p.id)
  }

  /** unique_together (teacher, feature) on the usage ledger. */
  ghost predicate LedgerValid(ledger: seq<FeatureUsage>)
  {
    UniqueKey(ledger, (u: FeatureUsage) => (u.teacher, u.feature))
  }

  /** `Feature.objects.get(code=code)`. */
  function FindFeature(features: seq<Feature>, code: string): (r: Option<Feature>)
    ensures r.None? <==> forall i :: 0 <= i < |features| ==> features[i].code != code
    ensures r.Some? ==> r.value in features && r.value.code == code
  {
    First(features, (f: Feature) => f.code == code)
  }

  /** `Plan.objects.get(id=id)`; the requested id may be any integer. */
  function FindPlan(plans: seq<Plan>, id: int): (r: Option<Plan>)
    ensures r.None? <==> forall i :: 0 <= i < |plans| ==> plans[i].id != id
    ensures r.Some? ==> r.value in plans && r.value.id == id
  {
    First(plans, (p: Plan) => p.id == id)
  }

  /** `PlanFeature.objects.filter(plan=plan, feature=feature).first()`. */
  function FindPlanFeature(planFeatures: seq<PlanFeature>, plan: nat, feature: nat): (r: Option<PlanFeature>)
    ensures r.None? <==> forall i :: 0 <= i < |planFeatures| ==>
                           !(planFeatures[i].plan == plan && planFeatures[i].feature == feature)
    ensures r.Some? ==> r.value in planFeatures && r.value.plan == plan && r.value.feature == feature
  {
    First(planFeatures, (pf: PlanFeature) => pf.plan == plan && pf.feature == feature)
  }

  /** `FeatureUsage.objects.filter(teacher=teacher, feature=feature).first()`. */
  function FindUsage(ledger: seq<FeatureUsage>, teacher: nat, feature: nat): (r: Option<FeatureUsage>)
    ensures r.None? <==> forall i :: 0 <= i < |ledger| ==>
                           !(ledger[i].teacher == teacher && ledger[i].feature == feature)
    ensures r.Some? ==> r.value in ledger && r.value.teacher == teacher && r.value.feature == feature
  {
    First(ledger, (u: FeatureUsage) => u.teacher == teacher && u.feature == feature)
  }

  /** `Price.objects.get(id=id, plan=plan, is_active=True)`. */
  function FindActivePrice(prices: seq<Price>, id: int, plan: nat): (r: Option<Price>)
    ensures r.None? <==> forall i :: 0 <= i < |prices| ==>
                           !(prices[i].id == id && prices[i].plan == plan && prices[i].isActive)
    ensures r.Some? ==> r.value in prices && r.value.id == id && r.value.plan == plan && r.value.isActive
  {
    First(prices, (p: Price) => p.id == id && p.plan == plan && p.isActive)
  }

  /**
   * Under unique_together (plan, feature), the row a plan-feature query finds
   * is the one row linking the two.
   */
  lemma PlanFeatureIsTheRow(cat: Catalog, i: nat)
    requires CatalogValid(cat) && i < |cat.planFeatures|
    ensures FindPlanFeature(cat.planFeatures, cat.planFeatures[i].plan, cat.planFeatures[i].feature)
            == Some(cat.planFeatures[i])
  {
    var pf := cat.planFeatures[i];
    var r := FindPlanFeature(cat.planFeatures, pf.plan, pf.feature);
    assert r.Some?;
    var j :| 0 <= j < |cat.planFeatures| && cat.planFeatures[j] == r.value;
    assert (cat.planFeatures[j].plan, cat.planFeatures[j].feature) == (pf.plan, pf.feature);
  }

  /** Under unique_together (teacher, feature), a ledger query finds the one row for the pair. */
  lemma UsageIsTheRow(ledger: seq<FeatureUsage>, i: nat)
    requires LedgerValid(ledger) && i < |ledger|
    ensures FindUsage(ledger, ledger[i].teacher, ledger[i].feature) == Some(ledger[i])
  {
    var u := ledger[i];
    var r := FindUsage(ledger, u.teacher, u.feature);
    assert r.Some?;
    var j :| 0 <= j < |ledger| && ledger[j] == r.value;
    assert (ledger[j].teacher, ledger[j].feature) == (ledger[i].teacher, ledger[i].feature);
  }
}
