/**
 * The fee-day allocator: which days of the month, from 1 to the configured
 * last fee day, still have room for another teacher, which of them is the
 * best (the earliest), and whether a given day is available.
 *
 * `feeDays` is the fee day of every existing teacher, one entry per teacher.
 * `capacity` is the parsed `teacher_capacity_per_day` setting; `None` and 0
 * both mean "no limit".
 */
module TeachersUtils {
  import opened Wrappers

  /** How many teachers have fee day `d`. */
  function CountOn(feeDays: seq<int>, d: int): (n: nat)
    ensures n <= |feeDays|
    ensures n == 0 <==> d !in feeDays
  {
    if |feeDays| == 0 then 0
    else (if feeDays[0] == d then 1 else 0) + CountOn(feeDays[1..], d)
  }

  /** The count is the multiplicity of `d` among the fee days. */
  lemma {:induction false} CountIsMultiplicity(feeDays: seq<int>, d: int)
    ensures CountOn(feeDays, d) == multiset(feeDays)[d]
  {
    if |feeDays| > 0 {
      CountIsMultiplicity(feeDays[1..], d);
      assert feeDays == [feeDays[0]] + feeDays[1..];
    }
  }

  /** A new teacher on day `e` adds one to day `e` and nothing to any other day. */
  lemma CountAfterAppend(feeDays: seq<int>, e: int, d: int)
    ensures CountOn(feeDays + [e], d) == CountOn(feeDays, d) + (if e == d then 1 else 0)
  {
    CountIsMultiplicity(feeDays, d);
    CountIsMultiplicity(feeDays + [e], d);
    assert multiset(feeDays + [e]) == multiset(feeDays) + multiset{e};
  }

  /** `m.get(d, 0)`. */
  function GetOrZero(m: map<int, nat>, d: int): nat
  {
    if d in m then m[d] else 0
  }

  /** used_capacity: the number of teachers per day, for the days that have any. */
  function UsedCapacity(feeDays: seq<int>): (m: map<int, nat>)
    ensures forall d :: d in m <==> d in feeDays
    ensures forall d :: GetOrZero(m, d) == CountOn(feeDays, d)
  {
    map d | d in feeDays :: CountOn(feeDays, d)
  }

  /** Python's falsiness of the capacity setting: absent or 0 means no limit. */
  predicate NoCapacity(capacity: Option<nat>)
  {
    capacity.None? || capacity.value == 0
  }

  /** Day `d` can take one more teacher. */
  predicate HasRoom(capacity: Option<nat>, feeDays: seq<int>, d: int)
  {
    NoCapacity(capacity) || CountOn(feeDays, d) < capacity.value
  }

  /** The available days among 1..n, in ascending order. */
  function AvailableUpTo(capacity: Option<nat>, feeDays: seq<int>, n: nat): seq<int>
  {
    if n == 0 then []
    else AvailableUpTo(capacity, feeDays, n - 1) + (if HasRoom(capacity, feeDays, n) then [n] else [])
  }

  /** `range(1, n + 1)`. */
  function DayRange(n: nat): (r: seq<int>)
    ensures |r| == n && forall i :: 0 <= i < n ==> r[i] == i + 1
  {
    seq(n, i => i + 1)
  }

  predicate StrictlyIncreasing(s: seq<int>)
  {
    forall i, j :: 0 <= i < j < |s| ==> s[i] < s[j]
  }

  /** A day is listed exactly when it lies in 1..n and has room. */
  lemma {:induction false} AvailableMembership(capacity: Option<nat>, feeDays: seq<int>, n: nat, d: int)
    ensures d in AvailableUpTo(capacity, feeDays, n) <==> 1 <= d <= n && HasRoom(capacity, feeDays, d)
  {
    if n > 0 {
      AvailableMembership(capacity, feeDays, n - 1, d);
    }
  }

  /** The listed days are strictly ascending (so free of duplicates) and lie in 1..n. */
  lemma {:induction false} AvailableAscending(capacity: Option<nat>, feeDays: seq<int>, n: nat)
    ensures StrictlyIncreasing(AvailableUpTo(capacity, feeDays, n))
    ensures forall i :: 0 <= i < |AvailableUpTo(capacity, feeDays, n)| ==> 1 <= AvailableUpTo(capacity, feeDays, n)[i] <= n
  {
    if n > 0 {
      AvailableAscending(capacity, feeDays, n - 1);
    }
  }

  /** Without a capacity every day 1..n is listed, in order. */
  lemma {:induction false} AvailableWithoutCapacity(capacity: Option<nat>, feeDays: seq<int>, n: nat)
    requires NoCapacity(capacity)
    ensures AvailableUpTo(capacity, feeDays, n) == DayRange(n)
  {
    if n > 0 {
      AvailableWithoutCapacity(capacity, feeDays, n - 1);
      assert DayRange(n) == DayRange(n - 1) + [n];
    }
  }

  /** A teacher whose fee day lies outside 1..n does not change the list. */
  lemma {:induction false} OutOfRangeTeacherIgnored(capacity: Option<nat>, feeDays: seq<int>, e: int, n: nat)
    requires e < 1 || e > n
    ensures AvailableUpTo(capacity, feeDays + [e], n) == AvailableUpTo(capacity, feeDays, n)
  {
    if n > 0 {
      OutOfRangeTeacherIgnored(capacity, feeDays, e, n - 1);
      CountAfterAppend(feeDays, e, n);
    }
  }

  /**
   * get_available_fee_days: every day when there is no capacity limit,
   * otherwise the days whose teacher count is below the capacity.
   */
  method AvailableFeeDays(capacity: Option<nat>, feeDays: seq<int>, maxFeeDay: nat) returns (days: seq<int>)
    ensures days == AvailableUpTo(capacity, feeDays, maxFeeDay)
    ensures StrictlyIncreasing(days)
    ensures forall d :: d in days <==> 1 <= d <= maxFeeDay && HasRoom(capacity, feeDays, d)
    ensures NoCapacity(capacity) ==> days == DayRange(maxFeeDay)
  {
    AvailableAscending(capacity, feeDays, maxFeeDay);
    forall d {
      AvailableMembership(capacity, feeDays, maxFeeDay, d);
    }
    if NoCapacity(capacity) {
      AvailableWithoutCapacity(capacity, feeDays, maxFeeDay);
      return DayRange(maxFeeDay);
    }
    var used := UsedCapacity(feeDays);
    days := [];
    for day := 1 to maxFeeDay + 1
      invariant days == AvailableUpTo(capacity, feeDays, day - 1)
    {
      if GetOrZero(used, day) < capacity.value {
        days := days + [day];
      }
    }
  }

  /** An error for the case where every day is at capacity. */
  datatype AllocationError = AllocationExhausted

  /**
   * get_best_fee_day: the earliest available day; the source's `min` of an
   * empty list is reported as AllocationExhausted.
   */
  method BestFeeDay(capacity: Option<nat>, feeDays: seq<int>, maxFeeDay: nat) returns (r: Result<int, AllocationError>)
    ensures r.Failure? <==> forall d :: 1 <= d <= maxFeeDay ==> !HasRoom(capacity, feeDays, d)
    ensures r.Success? ==>
              && r.value in AvailableUpTo(capacity, feeDays, maxFeeDay)
              && 1 <= r.value <= maxFeeDay && HasRoom(capacity, feeDays, r.value)
              && forall d :: d in AvailableUpTo(capacity, feeDays, maxFeeDay) ==> r.value <= d
  {
    var days := AvailableFeeDays(capacity, feeDays, maxFeeDay);
    if |days| == 0 {
      forall d | 1 <= d <= maxFeeDay ensures !HasRoom(capacity, feeDays, d) {
        assert d !in days;
      }
      return Failure(AllocationExhausted);
    }
    assert days[0] in days;
    forall d | d in days ensures days[0] <= d {
      var k :| 0 <= k < |days| && days[k] == d;
    }
    r := Success(days[0]);
  }

  /** is_day_available_for_fee: `day` is in the available list. */
  method IsDayAvailableForFee(day: int, capacity: Option<nat>, feeDays: seq<int>, maxFeeDay: nat) returns (b: bool)
    ensures b <==> day in AvailableUpTo(capacity, feeDays, maxFeeDay)
    ensures b <==> 1 <= day <= maxFeeDay && HasRoom(capacity, feeDays, day)
  {
    var days := AvailableFeeDays(capacity, feeDays, maxFeeDay);
    b := day in days;
  }

  /** With capacity 2, a day that already has three teachers is not offered. */
  lemma FullDayExcluded(n: nat)
    ensures 1 !in AvailableUpTo(Some(2), [1, 1, 1], n)
  {
    AvailableMembership(Some(2), [1, 1, 1], n, 1);
  }
}
