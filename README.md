# TutorKhata billing and fee-day rules, modelled in Dafny

TutorKhata is a backend for tutors. The teachers manage students and fees, and they subscribe to a billing plan. This project models the parts of it that carry business rules:

- **Entitlement evaluator** (`BillingUtils`). It decides whether a teacher may use a feature. The checks run in order and stop at the first check that decides the outcome: the feature code is unknown; the teacher has no subscription; the plan does not include the feature; the limit is unlimited; the monthly counter has reached the limit. The module also holds the derived queries for monthly limit, usage, remaining and usage details.
- **Record types and queries** (`BillingModels`, `Tables`). This covers plans, features, plan-features, prices, subscriptions and the usage ledger. Each table is a sequence of rows in primary-key order. `filter(...).first()` and `get(...)` are `Tables.First`. Each uniqueness constraint is a predicate.
- **Request validation** (`BillingSerializers`). This covers subscription-request validation, the single writable field of a subscription update, the limit and remainder fields of the usage serializer, and the feature-code check.
- **Subscription lifecycle** (`BillingViews`). Create, update, cancel and renew are methods on a subscription table. The table is a map from teacher id to subscription, so a teacher has at most one. The module also holds the usage-detail view, whose reply is zero-filled when the teacher has no ledger row, and the feature-check view. Time is a whole number of days, and a month is exactly 30 days.
- **Settings store** (`CoreModels`). A text-to-text table with `get` (returns a default when the key is absent) and an upsert `set`.
- **Fee-day allocator** (`TeachersUtils`). It lists the days from 1 to the last fee day that still have room under the per-day capacity. It also gives the earliest such day and tests whether a given day is available. When every day is full, the source's `min` of an empty list becomes the error `AllocationExhausted`.
- **Teacher table** (`TeachersModels`). It holds the post-save hook that creates a teacher for a newly created user. The hook assigns the earliest available fee day and the configured free SMS tokens.

Notes on the source's behaviour:

- Creating a second subscription is refused with the ordinary 400 reply "You already have an active subscription" (tutor_khata/billing/views.py:77-81); no dedicated error type is raised.
- A subscription request carries both `plan_id` and `price_id`, and the serializer checks that the plan exists and that the price is an active price of that plan.
- The cancel reply's detail text is two adjacent string literals with no space between them, so it reads "cancelledat". `BillingViews.ReplyDetail` keeps that text.
- `tutor_khata/teachers/utils.py:9` calls `AppSettings.get_number`, but `tutor_khata/core/models.py` defines only `get` and `set`. As written, computing the available days fails at that line. The model takes the capacity as an already-parsed `Option<nat>` instead. `None` and 0 both mean "no limit", which matches the source's falsiness test.
- The last fee day `MAX_FEE_DAY` is a settings value, while the field validator hard-codes 25. The allocator takes the last fee day as a parameter. `TeachersModels.TeacherTable.CreateTeacher` promises that the chosen day passes the validator only when the last fee day is at most 25. Django's `objects.create` does not run field validators, so a larger setting would store days the validator rejects.

## Model

| member | source | states |
|---|---|---|
| `Tables.First` | tutor_khata/billing/utils.py:17-19 | `filter(...).first()`: `None` exactly when no row matches; otherwise a matching row with no matching row before it |
| `BillingModels.ParseStatus` | tutor_khata/billing/models.py:136-139 | the status column holds exactly the three choices trial/active/expired; parsing is the inverse of the stored text |
| `BillingModels.FindFeature` | tutor_khata/billing/utils.py:46-53 | feature lookup by code: `None` exactly when no feature has the code, else a feature with that code |
| `BillingModels.FindPlan` | tutor_khata/billing/serializers.py:116-119 | plan lookup by id: `None` exactly when no plan has the id |
| `BillingModels.FindPlanFeature` | tutor_khata/billing/utils.py:64-66 | plan-feature lookup: `None` exactly when no row links the plan and the feature |
| `BillingModels.FindUsage` | tutor_khata/billing/utils.py:17-19 | ledger lookup: `None` exactly when the teacher has no row for the feature |
| `BillingModels.FindActivePrice` | tutor_khata/billing/serializers.py:121-128 | price lookup: found only if the id matches, the price belongs to the plan and it is active |
| `BillingModels.PlanFeatureIsTheRow` | tutor_khata/billing/models.py:70-71 | under unique (plan, feature), the lookup returns the one row for the pair |
| `BillingModels.UsageIsTheRow` | tutor_khata/billing/models.py:100-101 | under unique (teacher, feature), the ledger lookup returns the one row for the pair |
| `BillingUtils.Headroom` | tutor_khata/billing/utils.py:29 | `max(0, limit - used)`: at most the limit, `limit - used` when used ≤ limit, 0 otherwise |
| `BillingUtils.FeatureMonthlyLimit` | tutor_khata/billing/utils.py:4-12 | `None` without a subscription or when the plan lacks the feature; a value only if a plan-feature row grants it; whenever a row links the plan and the feature, the result is the limit of such a row |
| `BillingUtils.FeatureUsed` | tutor_khata/billing/utils.py:15-20 | 0 when the ledger has no row; whenever a row exists, the result is the counter of such a row |
| `BillingUtils.FeatureRemaining` | tutor_khata/billing/utils.py:23-29 | `None` if and only if the limit is `None`; otherwise the non-negative headroom under the limit |
| `BillingUtils.LimitIsTheRowsLimit` | tutor_khata/billing/utils.py:8-11 | with unique (plan, feature), the monthly limit is the limit of the one row for the teacher's plan |
| `BillingUtils.UsedIsTheRowsCounter` | tutor_khata/billing/utils.py:15-20 | with unique (teacher, feature), the usage is the counter of that row |
| `BillingUtils.CanUseFeature` | tutor_khata/billing/utils.py:32-105 | the ordered decision: "Feature not found" if and only if the code is unknown; "No active subscription" if and only if the feature is known and the teacher has no subscription; "Feature not included in your plan" if and only if the plan lacks it; these three carry no counters; unlimited gives used 0, limit null and no remaining; with a limit, can_use holds if and only if used < limit, and remaining is the headroom (0 when refused, > 0 when allowed) |
| `BillingUtils.ReasonTextsDistinct` | tutor_khata/billing/utils.py:51-100 | the six reasons have pairwise different texts, so the text alone identifies the outcome |
| `BillingUtils.DecisionMatchesQueries` | tutor_khata/billing/utils.py:76-105 | the decision's limit, used and remaining are those of the derived queries; a permitted use never sees remaining 0; the counters appear if and only if the plan grants the feature |
| `BillingUtils.DecisionDependsOnlyOnPlan` | tutor_khata/billing/utils.py:56-66 | only the subscription's existence and plan matter: status (an expired subscription included), dates, price, auto-renew and other teachers' rows do not |
| `BillingUtils.UnlimitedIgnoresLedger` | tutor_khata/billing/utils.py:76-83 | an unlimited decision is the same whatever the ledger holds (used is reported as 0) |
| `BillingUtils.FeatureUsageDetailsAsWritten` | tutor_khata/billing/utils.py:108-143 | as written: used, limit and last reset time follow the ledger row; with no row remaining equals the limit; with a row and a limit of 0 remaining is `None`; otherwise remaining agrees with get_feature_remaining |
| `BillingUtils.FeatureUsageDetails` | tutor_khata/billing/utils.py:108-143 | corrected: remaining is exactly get_feature_remaining on both branches; the last reset time is the row's; with no row used is 0, remaining equals the limit and there is no reset time |
| `BillingUtils.ZeroLimitDetailsDisagree` | tutor_khata/billing/utils.py:126-135 | a limit of 0 with a ledger row gives remaining `None` as written, 0 from get_feature_remaining and from the corrected details |
| `BillingSerializers.ValidateCreate` | tutor_khata/billing/serializers.py:115-132 | error keyed `plan_id` if and only if the plan is unknown; `price_id` if and only if the plan exists and no active price with that id belongs to it; on success the data gains that plan and price and keeps its ids |
| `BillingSerializers.ApplyUpdate` | tutor_khata/billing/serializers.py:135-138 | an update changes only writable fields (`auto_renew`), never a read-only one (status, ends_at, trial_ends_at, …), and keeps a subscription well formed |
| `BillingSerializers.SerializedMonthlyLimit` | tutor_khata/billing/serializers.py:157-164 | `None` without a subscription or when the plan lacks the feature; equals get_feature_monthly_limit for the row's teacher and feature |
| `BillingSerializers.SerializedRemaining` | tutor_khata/billing/serializers.py:166-170 | `None` if and only if the limit is `None`; otherwise at most the limit, `limit - used` or 0 |
| `BillingSerializers.SerializedRemainingAgrees` | tutor_khata/billing/serializers.py:166-170 | with unique (teacher, feature), the serializer's remaining equals get_feature_remaining |
| `BillingSerializers.ValidateFeatureCode` | tutor_khata/billing/serializers.py:176-181 | accepted, unchanged, if and only if some feature has the code; otherwise "Feature not found" |
| `BillingViews.NewSubscription` | tutor_khata/billing/views.py:85-107 | the created row is well formed; the plan is the price's plan; ends_at is now + duration_months·30; trial with trial_ends_at = now + trial_months·30 if and only if trial_months > 0, else active with no trial end; auto_renew is on |
| `BillingViews.Cancelled` | tutor_khata/billing/views.py:169-170 | auto_renew is off and no other field changes |
| `BillingViews.Renewed` | tutor_khata/billing/views.py:200-213 | expired: active, ends_at = now + duration_months·30, only status, ends_at and auto_renew change; otherwise only auto_renew changes; auto_renew on, never expired afterwards; well-formedness kept |
| `BillingViews.SubscriptionTable.Mine` | tutor_khata/billing/views.py:47-62 | the teacher's subscription if and only if there is one, else "not found" with the detail "No active subscription found"; a returned subscription is well-formed |
| `BillingViews.SubscriptionTable.Create` | tutor_khata/billing/views.py:75-114 | a duplicate is refused first and nothing is added; an invalid request is refused with its field error and nothing is added; otherwise exactly the new subscription is inserted under the teacher |
| `BillingViews.SubscriptionTable.Update` | tutor_khata/billing/views.py:127-146 | 404 without a subscription, changing nothing; otherwise only the update is applied to the teacher's row |
| `BillingViews.SubscriptionTable.Cancel` | tutor_khata/billing/views.py:158-177 | 404 without a subscription, changing nothing; otherwise the teacher's row is cancelled and every other row is kept |
| `BillingViews.SubscriptionTable.Renew` | tutor_khata/billing/views.py:189-214 | 404 without a subscription, changing nothing; otherwise the teacher's row is renewed, with the reply telling an expired renewal from re-enabled auto-renewal |
| `BillingViews.ReplyDetailsDistinct` | tutor_khata/billing/views.py:172-214 | the cancel, renewed and auto-renewal replies have pairwise different detail texts |
| `BillingViews.UsageDetailView` | tutor_khata/billing/views.py:231-258 | 404 if and only if the code is unknown, with the same "Feature not found" text as can_use_feature's reason; on both branches used, monthly limit and remaining equal the usage queries; zero-filled (used 0, no reset time, remaining = limit) when the teacher has no row; otherwise the row's last reset time |
| `BillingViews.FeatureCheckView` | tutor_khata/billing/views.py:264-274 | refused if and only if the code is unknown, with the same "Feature not found" text as can_use_feature's reason; otherwise the decision, which then never says "Feature not found" |
| `CoreModels.AppSettings.Get` | tutor_khata/core/models.py:9-15 | the stored value when the key exists, else the default (`None` unless given) |
| `CoreModels.AppSettings.Set` | tutor_khata/core/models.py:17-26 | returns the value; an existing key is overwritten without adding an entry, an absent one is inserted; afterwards get returns the value and every other key is unchanged |
| `TeachersUtils.CountOn` | tutor_khata/teachers/utils.py:16-20 | the per-day teacher count is at most the number of teachers, and 0 exactly for days no teacher has |
| `TeachersUtils.CountIsMultiplicity` | tutor_khata/teachers/utils.py:16-20 | the count is the multiplicity of the day among the teachers' fee days |
| `TeachersUtils.CountAfterAppend` | tutor_khata/teachers/utils.py:16-20 | one new teacher adds one to their own day's count and nothing to any other day |
| `TeachersUtils.UsedCapacity` | tutor_khata/teachers/utils.py:22-23 | the dictionary has exactly the days that have teachers, and `get(day, 0)` is that day's count |
| `TeachersUtils.DayRange` | tutor_khata/teachers/utils.py:13 | `range(1, n + 1)`: n entries, the i-th being i + 1 |
| `TeachersUtils.AvailableMembership` | tutor_khata/teachers/utils.py:25-31 | a day is listed if and only if it lies in 1..last fee day and its count is below the capacity (or there is no capacity) |
| `TeachersUtils.AvailableAscending` | tutor_khata/teachers/utils.py:25-31 | the list is strictly ascending (so free of duplicates) and within 1..last fee day |
| `TeachersUtils.AvailableWithoutCapacity` | tutor_khata/teachers/utils.py:9-13 | with no capacity set (absent or 0) the list is exactly 1..last fee day |
| `TeachersUtils.OutOfRangeTeacherIgnored` | tutor_khata/teachers/utils.py:27-29 | a teacher whose fee day is outside 1..last fee day never changes the list |
| `TeachersUtils.FullDayExcluded` | tutor_khata/teachers/utils.py:27-29 | with capacity 2, a day that has three teachers is not listed |
| `TeachersUtils.AvailableFeeDays` | tutor_khata/teachers/utils.py:5-31 | the loop's result is the specified list, so it is ascending, holds exactly the days with room, and is all days when there is no capacity |
| `TeachersUtils.BestFeeDay` | tutor_khata/teachers/utils.py:33-34 | fails if and only if no day has room; otherwise returns an available day that is ≤ every available day |
| `TeachersUtils.IsDayAvailableForFee` | tutor_khata/teachers/utils.py:36-37 | true if and only if the day is in the available list, that is, it is in range and has room |
| `TeachersModels.TeacherTable.CreateTeacher` | tutor_khata/teachers/models.py:54-67 | nothing happens unless the user was just created; a new user gets exactly one teacher, appended on the earliest available day, with the configured free tokens (0 if unset) and no paid tokens, whenever some day has room and the user has no teacher yet; fails with an allocation error exactly when every day is full and with a duplicate error exactly when a day has room but the user already has a teacher, changing nothing; keeps one teacher per user and every day within capacity; the day passes the 1..25 validator when the last fee day is ≤ 25 |

## Findings

| source | as written | input that shows it | evidently intended | confidence | as-written member | corrected member |
|---|---|---|---|---|---|---|
| tutor_khata/billing/utils.py:131-133 | latent defect of `get_feature_usage_details`: with a ledger row, `remaining` is computed only when `monthly_limit` is truthy, so a limit of 0 yields `None`. No caller in the source reaches that branch: tutor_khata/billing/views.py:240-247 calls the helper only when the teacher has no row, and replies for existing rows go through tutor_khata/billing/serializers.py:165-170, which tests for `None` | a plan grants a feature with monthly limit 0, and the teacher has a ledger row with used 0 | remaining 0, as from get_feature_remaining, the usage serializer and the no-row branch (a null test, not a truthiness test) | medium; not executed | `BillingUtils.FeatureUsageDetailsAsWritten` (counterexample: `BillingUtils.ZeroLimitDetailsDisagree`) | `BillingUtils.FeatureUsageDetails` |

## Left out

- HTTP rendering is not modelled: status codes, response bodies beyond the decision and the usage details, OpenAPI schema annotations and URL routing.
- The plan list, plan detail and usage list endpoints are not modelled. They only serialize rows and contain no rules. Each row of the usage list is serialized as in the row branch of `BillingViews.UsageDetailView`.
- Request parsing is not modelled. `plan_id` and `price_id` arrive as integers, `auto_renew` as an optional boolean, `feature_code` already trimmed of surrounding whitespace and non-blank, and numeric settings as already-parsed naturals. Malformed bodies that the framework rejects with 400 are out of scope. So are keys that the update serializer silently drops.
- `BillingViews.SubscriptionTable.Update` takes only `auto_renew`, because the update serializer ignores every other key of the request.
- Integer widths are not modelled. PositiveSmallIntegerField is capped at 32767 and PositiveIntegerField at 2147483647; the model uses unbounded `nat`. Dates are whole days, with no time zone or time of day.
- The `created` and `modified` timestamps, descriptions, names and avatars are stored data with no rules, so they are left out.
- A subscription holds its price as a record value. Prices are reference data that nothing in the modelled code changes.
- Incrementing and periodically resetting the usage counters are not modelled. No code for either appears in the modelled files.
- No code in the modelled files moves a subscription from trial to active or from active to expired. Status is written only on create (tutor_khata/billing/views.py:95-97) and on renew (tutor_khata/billing/views.py:206). Subscription rows can also be edited through the admin site (tutor_khata/billing/admin.py:14), which is not modelled.
- `get()` raising MultipleObjectsReturned is not modelled. The uniqueness constraints rule it out, and the model reads the first matching row.
- Concurrency is not modelled. The check-then-insert in subscription creation and the count-then-assign in fee-day allocation are each treated as one atomic step.
- The settings lookup through `get_number` and the parsing of text settings into numbers are not modelled. The capacity and the free-token count are parameters.
- When the hook fails, the user row already exists without a teacher. The model covers the teacher table only.
