/**
 * The teacher table and the hook that creates a teacher, with the earliest
 * available fee day and the configured free SMS tokens, whenever a user is
 * created.
 */
module TeachersModels {
  import opened Wrappers
  import opened TeachersUtils

  /** The bounds the fee-day field validators enforce. */
  const MinFeeDay: int := 1
  const MaxValidFeeDay: int := 25

  /** A teacher profile; both token counters default to 0 and `name` to "". */
  datatype Teacher = Teacher(user: nat, name: string, feeDay: int, smsTokens: nat, freeSmsTokens: nat)

  /** The fee-day field's validators: a day of the month from 1 to 25. */
  predicate FeeDayValid(d: int)
  {
    MinFeeDay <= d <= MaxValidFeeDay
  }

  /** Why the hook did not insert a teacher although the user is new. */
  datatype HookError =
    | AllocationFailed           // every fee day is at capacity
    | DuplicateTeacher           // the one-to-one user constraint refuses a second teacher

  class TeacherTable {
    var rows: seq<Teacher>

    /** At most one teacher per user (the one-to-one user field). */
    ghost predicate Valid()
      reads this
    {
      forall i, j :: 0 <= i < |rows| && 0 <= j < |rows| && rows[i].user == rows[j].user ==> i == j
    }

    /** The fee day of every teacher, in table order. */
    function FeeDays(): (fs: seq<int>)
      reads this
      ensures |fs| == |rows| && forall i :: 0 <= i < |rows| ==> fs[i] == rows[i].feeDay
    {
      seq(|rows|, i reads this requires 0 <= i < |rows| => rows[i].feeDay)
    }

    /** No day in 1..maxFeeDay holds more than `capacity` teachers. */
    ghost predicate WithinCapacity(capacity: nat, maxFeeDay: nat)
      reads this
    {
      forall d :: 1 <= d <= maxFeeDay ==> CountOn(FeeDays(), d) <= capacity
    }

    constructor ()
      ensures Valid() && rows == []
    {
      rows := [];
    }

    /**
     * The post-save hook create_teacher.  Nothing happens unless the user was
     * just created.  Otherwise the earliest available fee day is chosen (the
     * hook fails when there is none) and one teacher is appended for the
     * user, with the configured free SMS tokens (0 when the setting is
     * absent) and no paid tokens.  The insert keeps each day within capacity,
     * and the chosen day passes the field validators when the last fee day
     * is at most 25.
     */
    method CreateTeacher(user: nat, created: bool, capacity: Option<nat>, freeTokens: Option<nat>, maxFeeDay: nat)
      returns (r: Result<Option<Teacher>, HookError>)
      requires Valid()
      modifies this
      ensures Valid()
      ensures !created ==> r == Success(None) && rows == old(rows)
      ensures r.Failure? ==> rows == old(rows)
      ensures r == Failure(AllocationFailed) <==>
                created && forall d :: 1 <= d <= maxFeeDay ==> !HasRoom(capacity, old(FeeDays()), d)
      ensures created && (exists d :: 1 <= d <= maxFeeDay && HasRoom(capacity, old(FeeDays()), d))
                && (forall i :: 0 <= i < |old(rows)| ==> old(rows)[i].user != user) ==>
                r.Success? && r.value.Some?
      ensures r.Success? && r.value.Some? ==>
                var t := r.value.value;
                && created
                && rows == old(rows) + [t]
                && t.user == user && t.name == "" && t.smsTokens == 0 && t.freeSmsTokens == freeTokens.GetOr(0)
                && t.feeDay in AvailableUpTo(capacity, old(FeeDays()), maxFeeDay)
                && (forall d :: d in AvailableUpTo(capacity, old(FeeDays()), maxFeeDay) ==> t.feeDay <= d)
                && (maxFeeDay <= MaxValidFeeDay ==> FeeDayValid(t.feeDay))
      ensures r == Failure(DuplicateTeacher) <==>
                && created
                && (exists d :: 1 <= d <= maxFeeDay && HasRoom(capacity, old(FeeDays()), d))
                && (exists i :: 0 <= i < |old(rows)| && old(rows)[i].user == user)
      ensures created && r.Success? ==> r.value.Some? && forall i :: 0 <= i < |old(rows)| ==> old(rows)[i].user != user
      ensures capacity.Some? && capacity.value > 0 && old(WithinCapacity(capacity.value, maxFeeDay)) ==>
                WithinCapacity(capacity.value, maxFeeDay)
    {
      if !created {
        return Success(None);
      }
      var freeSmsTokens := freeTokens.GetOr(0);
      var best := BestFeeDay(capacity, FeeDays(), maxFeeDay);
      if best.Failure? {
        return Failure(AllocationFailed);
      }
      var day := best.value;
      if exists i :: 0 <= i < |rows| && rows[i].user == user {
        return Failure(DuplicateTeacher);
      }
      var t := Teacher(user, "", day, 0, freeSmsTokens);
      ghost var before := FeeDays();
      rows := rows + [t];
      assert FeeDays() == before + [day];
      forall d | 1 <= d <= maxFeeDay
        ensures CountOn(FeeDays(), d) == CountOn(before, d) + (if d == day then 1 else 0)
      {
        CountAfterAppend(before, day, d);
      }
      r := Success(Some(t));
    }
  }
}
