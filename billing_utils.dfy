/**
 * The entitlement evaluator and the usage queries beside it: how much of a
 * feature a teacher's plan grants per month, how much the teacher has used,
 * what remains, and whether one more use is allowed.  Everything here only
 * reads the tables.
 */
module BillingUtils {
  import opened Wrappers
  import opened BillingModels

  /** The subscription table: the owning teacher's id to the subscription (one per teacher). */
  type Subscriptions = map<nat, Subscription>

  /** `max(0, limit - used)`: what is left of a monthly limit. */
  function Headroom(limit: nat, used: nat): (r: nat)
    ensures r <= limit
    ensures used <= limit ==> r + used == limit
    ensures used >= limit ==> r == 0
  {
    if used < limit then limit - used else 0
  }

  /** The plan-feature row for the teacher's plan, if the teacher has a subscription. */
  function PlanFeatureOf(cat: Catalog, subs: Subscriptions, teacher: nat, feature: nat): Option<PlanFeature>
  {
    if teacher in subs then FindPlanFeature(cat.planFeatures, subs[teacher].plan, feature) else None
  }

  /**
   * get_feature_monthly_limit: the limit the teacher's plan grants for the
   * feature; `None` both for "unlimited" and for "no subscription / not in plan".
   */
  function FeatureMonthlyLimit(cat: Catalog, subs: Subscriptions, teacher: nat, feature: nat): (r: Option<nat>)
    ensures teacher !in subs ==> r.None?
    ensures teacher in subs && PlanFeatureOf(cat, subs, teacher, feature).None? ==> r.None?
    ensures r.Some? ==> teacher in subs && PlanFeature(subs[teacher].plan, feature, r) in cat.planFeatures
    ensures teacher in subs && (exists i :: 0 <= i < |cat.planFeatures| && cat.planFeatures[i].plan == subs[teacher].plan
                                             && cat.planFeatures[i].feature == feature)
            ==> exists i :: 0 <= i < |cat.planFeatures| && cat.planFeatures[i].plan == subs[teacher].plan
                            && cat.planFeatures[i].feature == feature && cat.planFeatures[i].monthlyLimit == r
  {
    match PlanFeatureOf(cat, subs, teacher, feature)
    case None => None
    case Some(pf) => pf.monthlyLimit
  }

  /** get_feature_usage: the ledger counter, 0 when the teacher has no row for the feature. */
  function FeatureUsed(ledger: seq<FeatureUsage>, teacher: nat, feature: nat): (r: nat)
    ensures (forall i :: 0 <= i < |ledger| ==> !(ledger[i].teacher == teacher && ledger[i].feature == feature))
            ==> r == 0
    ensures (exists i :: 0 <= i < |ledger| && ledger[i].teacher == teacher && ledger[i].feature == feature)
            ==> exists i :: 0 <= i < |ledger| && ledger[i].teacher == teacher
                            && ledger[i].feature == feature && ledger[i].used == r
  {
    match FindUsage(ledger, teacher, feature)
    case None => 0
    case Some(u) => u.used
  }

  /**
   * get_feature_remaining: `None` exactly when the limit is `None`, otherwise
   * what is left of the limit, never negative.
   */
  function FeatureRemaining(cat: Catalog, subs: Subscriptions, ledger: seq<FeatureUsage>, teacher: nat, feature: nat)
    : (r: Option<nat>)
    ensures r.None? <==> FeatureMonthlyLimit(cat, subs, teacher, feature).None?
    ensures r.Some? ==> r.value == Headroom(FeatureMonthlyLimit(cat, subs, teacher, feature).value,
                                            FeatureUsed(ledger, teacher, feature))
  {
    match FeatureMonthlyLimit(cat, subs, teacher, feature)
    case None => None
    case Some(limit) => Some(Headroom(limit, FeatureUsed(ledger, teacher, feature)))
  }

  /** Under unique_together (plan, feature), the limit is the one row's limit. */
  lemma LimitIsTheRowsLimit(cat: Catalog, subs: Subscriptions, teacher: nat, i: nat)
    requires CatalogValid(cat) && teacher in subs && i < |cat.planFeatures|
    requires cat.planFeatures[i].plan == subs[teacher].plan
    ensures FeatureMonthlyLimit(cat, subs, teacher, cat.planFeatures[i].feature) == cat.planFeatures[i].monthlyLimit
  {
    PlanFeatureIsTheRow(cat, i);
  }

  /** Under unique_together (teacher, feature), the usage is the one row's counter. */
  lemma UsedIsTheRowsCounter(ledger: seq<FeatureUsage>, i: nat)
    requires LedgerValid(ledger) && i < |ledger|
    ensures FeatureUsed(ledger, ledger[i].teacher, ledger[i].feature) == ledger[i].used
  {
    UsageIsTheRow(ledger, i);
  }

  /** The `reason` field of a decision. */
  datatype Reason =
    | FeatureNotFound
    | NoActiveSubscription
    | NotInPlan
    | UnlimitedUsage
    | LimitReached
    | WithinLimit

  function ReasonText(r: Reason): string
  {
    match r
    case FeatureNotFound => "Feature not found"
    case NoActiveSubscription => "No active subscription"
    case NotInPlan => "Feature not included in your plan"
    case UnlimitedUsage => "Unlimited usage"
    case LimitReached => "Monthly limit reached"
    case WithinLimit => "Within usage limit"
  }

  /** Each reason has its own text, so a client can tell the outcomes apart by the text alone. */
  lemma ReasonTextsDistinct(a: Reason, b: Reason)
    ensures ReasonText(a) == ReasonText(b) <==> a == b
  {
  }

  /**
   * The dictionary can_use_feature returns.  `used`, `limit` and `remaining`
   * are `None` when the key is absent; `limit` is `Some(None)` when the key is
   * present with the value null.
   */
  datatype Decision = Decision(
    canUse: bool,
    reason: Reason,
    feature: string,
    used: Option<nat>,
    limit: Option<Option<nat>>,
    remaining: Option<nat>)

  /** A refusal issued before any counter is looked at. */
  predicate EarlyRefusal(r: Reason)
  {
    r == FeatureNotFound || r == NoActiveSubscription || r == NotInPlan
  }

  /**
   * can_use_feature: the ordered, short-circuiting entitlement decision.
   * Unknown feature, then missing subscription, then feature not in the plan,
   * then unlimited, then the counter against the limit.
   */
  function CanUseFeature(cat: Catalog, subs: Subscriptions, ledger: seq<FeatureUsage>, teacher: nat, code: string)
    : (d: Decision)
    ensures d.feature == code
    ensures d.canUse <==> d.reason == UnlimitedUsage || d.reason == WithinLimit
    ensures d.reason == FeatureNotFound <==> forall i :: 0 <= i < |cat.features| ==> cat.features[i].code != code
    ensures d.reason == NoActiveSubscription <==> FindFeature(cat.features, code).Some? && teacher !in subs
    ensures d.reason == NotInPlan <==>
              && FindFeature(cat.features, code).Some?
              && teacher in subs
              && FindPlanFeature(cat.planFeatures, subs[teacher].plan, FindFeature(cat.features, code).value.id).None?
    ensures EarlyRefusal(d.reason) ==> !d.canUse && d.used.None? && d.limit.None? && d.remaining.None?
    ensures d.reason == UnlimitedUsage ==> d.used == Some(0) && d.limit == Some(None) && d.remaining.None?
    ensures d.reason == LimitReached || d.reason == WithinLimit ==>
              && d.used.Some? && d.limit.Some? && d.limit.value.Some?
              && (d.canUse <==> d.used.value < d.limit.value.value)
              && d.remaining == Some(Headroom(d.limit.value.value, d.used.value))
    ensures d.reason == WithinLimit ==> d.remaining.value > 0
  {
    match FindFeature(cat.features, code)
    case None => Decision(false, FeatureNotFound, code, None, None, None)
    case Some(feature) =>
      if teacher !in subs then Decision(false, NoActiveSubscription, code, None, None, None)
      else
        match FindPlanFeature(cat.planFeatures, subs[teacher].plan, feature.id)
        case None => Decision(false, NotInPlan, code, None, None, None)
        case Some(pf) =>
          match pf.monthlyLimit
          case None => Decision(true, UnlimitedUsage, code, Some(0), Some(None), None)
          case Some(limit) =>
            var used := FeatureUsed(ledger, teacher, feature.id);
            if used >= limit then Decision(false, LimitReached, code, Some(used), Some(Some(limit)), Some(0))
            else Decision(true, WithinLimit, code, Some(used), Some(Some(limit)), Some(limit - used))
  }

  /**
   * The decision agrees with the derived queries: the limit it reports is
   * get_feature_monthly_limit, the counter is get_feature_usage, the
   * remainder is get_feature_remaining, and a permitted use never sees a
   * remainder of 0.
   */
  lemma DecisionMatchesQueries(cat: Catalog, subs: Subscriptions, ledger: seq<FeatureUsage>, teacher: nat, f: Feature)
    requires FindFeature(cat.features, f.code) == Some(f)
    ensures var d := CanUseFeature(cat, subs, ledger, teacher, f.code);
            && (d.limit.Some? ==> d.limit.value == FeatureMonthlyLimit(cat, subs, teacher, f.id))
            && (d.reason == LimitReached || d.reason == WithinLimit ==>
                  d.used == Some(FeatureUsed(ledger, teacher, f.id)))
            && (d.remaining.Some? ==> d.remaining == FeatureRemaining(cat, subs, ledger, teacher, f.id))
            && (d.canUse ==> FeatureRemaining(cat, subs, ledger, teacher, f.id) != Some(0))
            && (!EarlyRefusal(d.reason) <==> PlanFeatureOf(cat, subs, teacher, f.id).Some?)
  {
  }

  /**
   * The decision reads nothing of the subscription but its plan: the status
   * (an expired subscription included), dates, price and auto-renew flag do
   * not matter, and neither do other teachers' subscriptions.
   */
  lemma DecisionDependsOnlyOnPlan(cat: Catalog, subs: Subscriptions, ledger: seq<FeatureUsage>, teacher: nat,
                                  code: string, s: Subscription)
    requires teacher in subs && s.plan == subs[teacher].plan
    ensures CanUseFeature(cat, subs[teacher := s], ledger, teacher, code) == CanUseFeature(cat, subs, ledger, teacher, code)
    ensures CanUseFeature(cat, map[teacher := s], ledger, teacher, code) == CanUseFeature(cat, subs, ledger, teacher, code)
  {
  }

  /** An unlimited feature reports `used = 0` whatever the ledger holds. */
  lemma UnlimitedIgnoresLedger(cat: Catalog, subs: Subscriptions, ledger: seq<FeatureUsage>, other: seq<FeatureUsage>,
                               teacher: nat, code: string)
    requires CanUseFeature(cat, subs, ledger, teacher, code).reason == UnlimitedUsage
    ensures CanUseFeature(cat, subs, other, teacher, code) == CanUseFeature(cat, subs, ledger, teacher, code)
  {
  }

  /** The dictionary get_feature_usage_details returns. */
  datatype UsageDetails = UsageDetails(
    feature: nat,
    used: nat,
    monthlyLimit: Option<nat>,
    remaining: Option<nat>,
    lastResetAt: Option<int>)

  /**
   * get_feature_usage_details as written: with a ledger row, `remaining` is
   * computed only when the limit is truthy, so a limit of 0 gives `None`.
   */
  function FeatureUsageDetailsAsWritten(cat: Catalog, subs: Subscriptions, ledger: seq<FeatureUsage>, teacher: nat,
                                       feature: nat): (r: UsageDetails)
    ensures r.feature == feature
    ensures r.used == FeatureUsed(ledger, teacher, feature)
    ensures r.monthlyLimit == FeatureMonthlyLimit(cat, subs, teacher, feature)
    ensures r.lastResetAt.Some? <==> FindUsage(ledger, teacher, feature).Some?
    ensures FindUsage(ledger, teacher, feature).Some? ==>
              r.lastResetAt == Some(FindUsage(ledger, teacher, feature).value.lastResetAt)
    ensures FindUsage(ledger, teacher, feature).None? ==> r.remaining == r.monthlyLimit
    ensures FindUsage(ledger, teacher, feature).Some? && r.monthlyLimit == Some(0) ==> r.remaining.None?
    ensures r.monthlyLimit != Some(0) ==> r.remaining == FeatureRemaining(cat, subs, ledger, teacher, feature)
  {
    var limit := FeatureMonthlyLimit(cat, subs, teacher, feature);
    match FindUsage(ledger, teacher, feature)
    case Some(u) =>
      var remaining := if limit.Some? && limit.value != 0 then Some(Headroom(limit.value, u.used)) else None;
      UsageDetails(feature, u.used, limit, remaining, Some(u.lastResetAt))
    case None =>
      UsageDetails(feature, 0, limit, limit, None)
  }

  /**
   * get_feature_usage_details with the null test the other usage paths use:
   * `remaining` is exactly get_feature_remaining on both branches.
   */
  function FeatureUsageDetails(cat: Catalog, subs: Subscriptions, ledger: seq<FeatureUsage>, teacher: nat,
                               feature: nat): (r: UsageDetails)
    ensures r.feature == feature
    ensures r.used == FeatureUsed(ledger, teacher, feature)
    ensures r.monthlyLimit == FeatureMonthlyLimit(cat, subs, teacher, feature)
    ensures r.remaining == FeatureRemaining(cat, subs, ledger, teacher, feature)
    ensures r.lastResetAt.Some? <==> FindUsage(ledger, teacher, feature).Some?
    ensures FindUsage(ledger, teacher, feature).Some? ==>
              r.lastResetAt == Some(FindUsage(ledger, teacher, feature).value.lastResetAt)
    ensures FindUsage(ledger, teacher, feature).None? ==> r.used == 0 && r.remaining == r.monthlyLimit
  {
    var limit := FeatureMonthlyLimit(cat, subs, teacher, feature);
    match FindUsage(ledger, teacher, feature)
    case Some(u) =>
      var remaining := if limit.Some? then Some(Headroom(limit.value, u.used)) else None;
      UsageDetails(feature, u.used, limit, remaining, Some(u.lastResetAt))
    case None =>
      UsageDetails(feature, 0, limit, limit, None)
  }

  /**
   * The as-written details disagree with get_feature_remaining on a plan that
   * includes a feature with a monthly limit of 0 once the teacher has a row:
   * `None` instead of 0.
   */
  lemma ZeroLimitDetailsDisagree()
    ensures var cat := Catalog([], [Feature(1, "sms", "SMS")], [PlanFeature(1, 1, Some(0))], []);
            var subs := map[7 := Subscription(1, Price(1, 1, 100, "BDT", 1, true), None, Some(30), Active, true)];
            var ledger := [FeatureUsage(7, 1, 0, 0)];
            && FeatureUsageDetailsAsWritten(cat, subs, ledger, 7, 1).remaining == None
            && FeatureRemaining(cat, subs, ledger, 7, 1) == Some(0)
            && FeatureUsageDetails(cat, subs, ledger, 7, 1).remaining == Some(0)
  {
    var cat := Catalog([], [Feature(1, "sms", "SMS")], [PlanFeature(1, 1, Some(0))], []);
    var subs := map[7 := Subscription(1, Price(1, 1, 100, "BDT", 1, true), None, Some(30), Active, true)];
    var ledger := [FeatureUsage(7, 1, 0, 0)];
    assert FindPlanFeature(cat.planFeatures, 1, 1) == Some(PlanFeature(1, 1, Some(0)));
    assert FindUsage(ledger, 7, 1) == Some(FeatureUsage(7, 1, 0, 0));
  }
}
