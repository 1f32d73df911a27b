/**
 * The state logic of the billing endpoints: the subscription lifecycle
 * (create, update, cancel, renew) over the subscription table, the usage
 * detail view with its zero-filled reply, and the feature-check view.
 * Time is a whole number of days and a month is exactly 30 days.
 */
module BillingViews {
  import opened Wrappers
  import opened BillingModels
  import opened BillingUtils
  import opened BillingSerializers

  /** Every month-based duration is converted to days at this rate. */
  const DaysPerMonth: nat := 30

  /** The refusals the billing views answer with. */
  datatype ApiError =
    | AlreadySubscribed             // 400
    | InvalidRequest(e: FieldError) // 400, field-keyed
    | SubscriptionNotFound          // 404
    | UnknownFeature                // 404 on the usage detail view
    | InvalidFeatureCode(msg: string) // 400 on the feature-check view

  /** The `detail` text of the refusals that carry one. */
  function ErrorDetail(e: ApiError): string
  {
    match e
    case AlreadySubscribed => "You already have an active subscription"
    case InvalidRequest(fe) => fe.message
    case SubscriptionNotFound => "No active subscription found"
    case UnknownFeature => "Feature not found"
    case InvalidFeatureCode(msg) => msg
  }

  /** The `detail` of a successful cancel or renew. */
  datatype Reply = CancelScheduled | RenewedNow | AutoRenewEnabled

  function ReplyDetail(r: Reply): string
  {
    match r
    // two adjacent literals in the source, joined without a space
    case CancelScheduled => "Subscription will be cancelledat the end of the current period"
    case RenewedNow => "Subscription renewed successfully"
    case AutoRenewEnabled => "Auto-renewal enabled"
  }

  /** The three successful cancel and renew replies are told apart by their detail text. */
  lemma ReplyDetailsDistinct(a: Reply, b: Reply)
    ensures ReplyDetail(a) == ReplyDetail(b) <==> a == b
  {
  }

  /**
   * The row SubscriptionCreateView inserts for `price` (whose plan is `plan`)
   * at day `now`: a trial when the plan offers trial months, active otherwise;
   * the subscription ends `durationMonths` months of 30 days from now.
   */
  function NewSubscription(plan: Plan, price: Price, now: int): (s: Subscription)
    requires price.plan == plan.id
    ensures s.WellFormed()
    ensures s.plan == price.plan && s.price == price
    ensures s.endsAt == Some(now + price.durationMonths * DaysPerMonth)
    ensures s.status == Trial <==> plan.trialMonths > 0
    ensures s.status == Active <==> plan.trialMonths == 0
    ensures s.trialEndsAt == if plan.trialMonths > 0 then Some(now + plan.trialMonths * DaysPerMonth) else None
    ensures s.autoRenew
  {
    var endsAt := now + price.durationMonths * DaysPerMonth;
    if plan.trialMonths > 0 then
      Subscription(price.plan, price, Some(now + plan.trialMonths * DaysPerMonth), Some(endsAt), Trial, true)
    else
      Subscription(price.plan, price, None, Some(endsAt), Active, true)
  }

  /** Cancel only turns auto-renewal off; the subscription stays usable until it ends. */
  function Cancelled(s: Subscription): (r: Subscription)
    ensures !r.autoRenew
    ensures ChangedFields(s, r) <= {"auto_renew"}
    ensures s.WellFormed() ==> r.WellFormed()
  {
    s.(autoRenew := false)
  }

  /**
   * Renew: an expired subscription becomes active for another
   * `durationMonths` months from now; any other subscription only has
   * auto-renewal turned back on.  Either way the result is not expired.
   */
  function Renewed(s: Subscription, now: int): (r: Subscription)
    ensures r.autoRenew && r.status != Expired
    ensures s.status == Expired ==>
              && r.status == Active
              && r.endsAt == Some(now + s.price.durationMonths * DaysPerMonth)
              && ChangedFields(s, r) <= {"status", "ends_at", "auto_renew"}
    ensures s.status != Expired ==> ChangedFields(s, r) <= {"auto_renew"}
    ensures s.WellFormed() ==> r.WellFormed()
  {
    if s.status == Expired then
      s.(endsAt := Some(now + s.price.durationMonths * DaysPerMonth), status := Active, autoRenew := true)
    else
      s.(autoRenew := true)
  }

  /** The subscription table, one row per teacher, as the views change it. */
  class SubscriptionTable {
    var rows: Subscriptions

    /** Every row is well formed. */
    ghost predicate Valid()
      reads this
    {
      forall t :: t in rows ==> rows[t].WellFormed()
    }

    constructor ()
      ensures Valid() && rows == map[]
    {
      rows := map[];
    }

    /** MySubscriptionView.get: the teacher's subscription, or 404. */
    method Mine(teacher: nat) returns (r: Result<Subscription, ApiError>)
      requires Valid()
      ensures r.Success? <==> teacher in rows
      ensures r.Success? ==> r.value.WellFormed()
      ensures r.Success? ==> r.value == rows[teacher]
      ensures r.Failure? ==> r.error == SubscriptionNotFound && ErrorDetail(r.error) == "No active subscription found"
    {
      if teacher in rows {
        r := Success(rows[teacher]);
      } else {
        r := Failure(SubscriptionNotFound);
      }
    }

    /**
     * SubscriptionCreateView.post: refused when the teacher already has a
     * subscription (checked before the request is validated), refused with
     * the validation error when the request is invalid, otherwise inserts
     * the new subscription for the validated price's plan.
     */
    method Create(teacher: nat, data: CreateData, cat: Catalog, now: int) returns (r: Result<Subscription, ApiError>)
      requires Valid()
      modifies this
      ensures Valid()
      ensures teacher in old(rows) ==> r == Failure(AlreadySubscribed) && rows == old(rows)
      ensures teacher !in old(rows) && ValidateCreate(cat, data).Failure? ==>
                r == Failure(InvalidRequest(ValidateCreate(cat, data).error)) && rows == old(rows)
      ensures teacher !in old(rows) && ValidateCreate(cat, data).Success? ==>
                var v := ValidateCreate(cat, data).value;
                && r == Success(NewSubscription(v.plan.value, v.price.value, now))
                && rows == old(rows)[teacher := r.value]
    {
      if teacher in rows {
        return Failure(AlreadySubscribed);
      }
      match ValidateCreate(cat, data)
      case Failure(e) =>
        r := Failure(InvalidRequest(e));
      case Success(v) =>
        // `price.plan` is the validated plan: validation matched the price on it.
        var s := NewSubscription(v.plan.value, v.price.value, now);
        rows := rows[teacher := s];
        r := Success(s);
    }

    /** SubscriptionUpdateView.patch: only `auto_renew` is written; 404 without a subscription. */
    method Update(teacher: nat, autoRenew: Option<bool>) returns (r: Result<Subscription, ApiError>)
      requires Valid()
      modifies this
      ensures Valid()
      ensures teacher !in old(rows) ==> r == Failure(SubscriptionNotFound) && rows == old(rows)
      ensures teacher in old(rows) ==>
                && rows == old(rows)[teacher := ApplyUpdate(old(rows)[teacher], autoRenew)]
                && r == Success(rows[teacher])
    {
      if teacher !in rows {
        return Failure(SubscriptionNotFound);
      }
      var s := ApplyUpdate(rows[teacher], autoRenew);
      rows := rows[teacher := s];
      r := Success(s);
    }

    /** SubscriptionCancelView.post: turns auto-renewal off; 404 without a subscription. */
    method Cancel(teacher: nat) returns (r: Result<Reply, ApiError>)
      requires Valid()
      modifies this
      ensures Valid()
      ensures teacher !in old(rows) ==> r == Failure(SubscriptionNotFound) && rows == old(rows)
      ensures teacher in old(rows) ==>
                r == Success(CancelScheduled) && rows == old(rows)[teacher := Cancelled(old(rows)[teacher])]
    {
      if teacher !in rows {
        return Failure(SubscriptionNotFound);
      }
      rows := rows[teacher := Cancelled(rows[teacher])];
      r := Success(CancelScheduled);
    }

    /**
     * SubscriptionRenewView.post: renews an expired subscription from `now`,
     * otherwise re-enables auto-renewal; 404 without a subscription.
     */
    method Renew(teacher: nat, now: int) returns (r: Result<Reply, ApiError>)
      requires Valid()
      modifies this
      ensures Valid()
      ensures teacher !in old(rows) ==> r == Failure(SubscriptionNotFound) && rows == old(rows)
      ensures teacher in old(rows) ==>
                && rows == old(rows)[teacher := Renewed(old(rows)[teacher], now)]
                && r == Success(if old(rows)[teacher].status == Expired then RenewedNow else AutoRenewEnabled)
    {
      if teacher !in rows {
        return Failure(SubscriptionNotFound);
      }
      var s := rows[teacher];
      rows := rows[teacher := Renewed(s, now)];
      r := Success(if s.status == Expired then RenewedNow else AutoRenewEnabled);
    }
  }

  /**
   * FeatureUsageDetailView.get: 404 for an unknown code; the serialized ledger
   * row when there is one; otherwise the zero-filled details.  On both
   * branches the reply agrees with the usage queries.
   */
  function UsageDetailView(cat: Catalog, subs: Subscriptions, ledger: seq<FeatureUsage>, teacher: nat, code: string)
    : (r: Result<UsageDetails, ApiError>)
    ensures r.Failure? <==> forall i :: 0 <= i < |cat.features| ==> cat.features[i].code != code
    ensures r.Failure? ==> r.error == UnknownFeature && ErrorDetail(r.error) == ReasonText(FeatureNotFound)
    ensures r.Success? ==>
              var f := FindFeature(cat.features, code).value;
              && r.value.feature == f.id
              && r.value.used == FeatureUsed(ledger, teacher, f.id)
              && r.value.monthlyLimit == FeatureMonthlyLimit(cat, subs, teacher, f.id)
              && r.value.remaining == FeatureRemaining(cat, subs, ledger, teacher, f.id)
    ensures r.Success? && FindUsage(ledger, teacher, r.value.feature).None? ==>
              r.value.used == 0 && r.value.lastResetAt.None? && r.value.remaining == r.value.monthlyLimit
    ensures r.Success? && FindUsage(ledger, teacher, r.value.feature).Some? ==>
              r.value.lastResetAt == Some(FindUsage(ledger, teacher, r.value.feature).value.lastResetAt)
  {
    match FindFeature(cat.features, code)
    case None => Failure(UnknownFeature)
    case Some(f) =>
      match FindUsage(ledger, teacher, f.id)
      case Some(u) =>
        Success(UsageDetails(f.id, u.used, SerializedMonthlyLimit(cat, subs, u), SerializedRemaining(cat, subs, u),
                             Some(u.lastResetAt)))
      case None =>
        // get_feature_usage_details is reached only without a row, where its
        // truthiness test on the limit plays no part.
        Success(FeatureUsageDetailsAsWritten(cat, subs, ledger, teacher, f.id))
  }

  /**
   * FeatureCheckView.post: an unknown code is refused by validation, so a
   * decision that is returned never says "Feature not found".
   */
  function FeatureCheckView(cat: Catalog, subs: Subscriptions, ledger: seq<FeatureUsage>, teacher: nat, code: string)
    : (r: Result<Decision, ApiError>)
    ensures r.Failure? <==> forall i :: 0 <= i < |cat.features| ==> cat.features[i].code != code
    ensures r.Failure? ==> r.error == InvalidFeatureCode("Feature not found")
                           && ErrorDetail(r.error) == ReasonText(FeatureNotFound)
    ensures r.Success? ==> r.value == CanUseFeature(cat, subs, ledger, teacher, code) && r.value.reason != FeatureNotFound
  {
    match ValidateFeatureCode(cat, code)
    case Failure(msg) => Failure(InvalidFeatureCode(msg))
    case Success(c) => Success(CanUseFeature(cat, subs, ledger, teacher, c))
  }
}
