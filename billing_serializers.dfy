/**
 * Request validation and computed response fields of the billing API:
 * validating a subscription request, the fields a subscription update may
 * write, the usage serializer's limit and remainder, and the feature-code
 * check.
 */
module BillingSerializers {
  import opened Wrappers
  import opened BillingModels
  import opened BillingUtils

  /** A validation error keyed by the request field it concerns. */
  datatype FieldError = FieldError(field: string, message: string)

  /**
   * The data of a subscription request: the two integer fields, and the
   * `plan` and `price` entries validation adds (absent before).
   */
  datatype CreateData = CreateData(planId: int, priceId: int, plan: Option<Plan>, price: Option<Price>)

  /**
   * SubscriptionCreateSerializer.validate: the plan must exist, then the price
   * must exist, belong to that plan and be active; on success the data gains
   * the plan and price and keeps the ids it came with.
   */
  function ValidateCreate(cat: Catalog, data: CreateData): (r: Result<CreateData, FieldError>)
    ensures r.Failure? && r.error.field == "plan_id" <==>
              forall i :: 0 <= i < |cat.plans| ==> cat.plans[i].id != data.planId
    ensures r.Failure? && r.error.field == "price_id" <==>
              && (exists i :: 0 <= i < |cat.plans| && cat.plans[i].id == data.planId)
              && forall i :: 0 <= i < |cat.prices| ==> !(cat.prices[i].id == data.priceId && cat.prices[i].plan == data.planId
                                                        && cat.prices[i].isActive)
    ensures r.Failure? ==> r.error.field == "plan_id" || r.error.field == "price_id"
    ensures r.Success? ==>
              && r.value.planId == data.planId && r.value.priceId == data.priceId
              && r.value.plan.Some? && r.value.price.Some?
              && r.value.plan.value in cat.plans && r.value.plan.value.id == data.planId
              && r.value.price.value in cat.prices && r.value.price.value.id == data.priceId
              && r.value.price.value.plan == r.value.plan.value.id && r.value.price.value.isActive
  {
    match FindPlan(cat.plans, data.planId)
    case None => Failure(FieldError("plan_id", "Plan not found"))
    case Some(plan) =>
      match FindActivePrice(cat.prices, data.priceId, plan.id)
      case None => Failure(FieldError("price_id", "Price not found or not active for this plan"))
      case Some(price) => Success(data.(plan := Some(plan), price := Some(price)))
  }

  /** The fields SubscriptionUpdateSerializer lets a client write. */
  const SubscriptionWritableFields: set<string> := {"auto_renew"}

  /** The fields SubscriptionSerializer only ever outputs. */
  const SubscriptionReadOnlyFields: set<string> := {"id", "trial_ends_at", "ends_at", "status", "created", "modified"}

  /** The names of the subscription fields whose values differ between `a` and `b`. */
  function ChangedFields(a: Subscription, b: Subscription): set<string>
  {
    (if a.plan != b.plan then {"plan"} else {})
    + (if a.price != b.price then {"price"} else {})
    + (if a.trialEndsAt != b.trialEndsAt then {"trial_ends_at"} else {})
    + (if a.endsAt != b.endsAt then {"ends_at"} else {})
    + (if a.status != b.status then {"status"} else {})
    + (if a.autoRenew != b.autoRenew then {"auto_renew"} else {})
  }

  /**
   * A partial update through SubscriptionUpdateSerializer: only `auto_renew`
   * is writable, so it is the only field the update can change; an update
   * that does not carry it changes nothing.
   */
  function ApplyUpdate(s: Subscription, autoRenew: Option<bool>): (r: Subscription)
    ensures ChangedFields(s, r) <= SubscriptionWritableFields
    ensures ChangedFields(s, r) !! SubscriptionReadOnlyFields
    ensures r.autoRenew == autoRenew.GetOr(s.autoRenew)
    ensures s.WellFormed() ==> r.WellFormed()
  {
    match autoRenew
    case None => s
    case Some(b) => s.(autoRenew := b)
  }

  /**
   * FeatureUsageSerializer.get_monthly_limit for a ledger row: `None` when
   * the row's teacher has no subscription or the plan lacks the feature.
   */
  function SerializedMonthlyLimit(cat: Catalog, subs: Subscriptions, obj: FeatureUsage): (r: Option<nat>)
    ensures obj.teacher !in subs ==> r.None?
    ensures obj.teacher in subs &&
            (forall i :: 0 <= i < |cat.planFeatures| ==>
               !(cat.planFeatures[i].plan == subs[obj.teacher].plan && cat.planFeatures[i].feature == obj.feature))
            ==> r.None?
    ensures r == FeatureMonthlyLimit(cat, subs, obj.teacher, obj.feature)
  {
    if obj.teacher in subs then
      match FindPlanFeature(cat.planFeatures, subs[obj.teacher].plan, obj.feature)
      case None => None
      case Some(pf) => pf.monthlyLimit
    else None
  }

  /**
   * FeatureUsageSerializer.get_remaining: `None` exactly when the limit is
   * `None`, otherwise what is left of it after the row's counter.
   */
  function SerializedRemaining(cat: Catalog, subs: Subscriptions, obj: FeatureUsage): (r: Option<nat>)
    ensures r.None? <==> SerializedMonthlyLimit(cat, subs, obj).None?
    ensures r.Some? ==> var limit := SerializedMonthlyLimit(cat, subs, obj).value;
                        r.value <= limit && (obj.used <= limit ==> r.value + obj.used == limit)
                        && (obj.used >= limit ==> r.value == 0)
  {
    match SerializedMonthlyLimit(cat, subs, obj)
    case None => None
    case Some(limit) => Some(Headroom(limit, obj.used))
  }

  /**
   * For a row of a ledger that keeps unique_together (teacher, feature), the
   * serializer's remainder is get_feature_remaining for that teacher and
   * feature.
   */
  lemma SerializedRemainingAgrees(cat: Catalog, subs: Subscriptions, ledger: seq<FeatureUsage>, i: nat)
    requires LedgerValid(ledger) && i < |ledger|
    ensures SerializedRemaining(cat, subs, ledger[i])
            == FeatureRemaining(cat, subs, ledger, ledger[i].teacher, ledger[i].feature)
  {
    UsedIsTheRowsCounter(ledger, i);
  }

  /** FeatureCheckSerializer.validate_feature_code: the code must name a feature. */
  function ValidateFeatureCode(cat: Catalog, value: string): (r: Result<string, string>)
    ensures r.Success? <==> exists i :: 0 <= i < |cat.features| && cat.features[i].code == value
    ensures r.Success? ==> r.value == value
    ensures r.Failure? ==> r.error == "Feature not found"
  {
    if FindFeature(cat.features, value).Some? then Success(value) else Failure("Feature not found")
  }
}
