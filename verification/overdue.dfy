/**
 * `enforceOverdueRejections` of lib/actions/overdue.ts as a transform of
 * the `job_applications` table: the signed-in user's applications still
 * `applied` or `no_answer` three weeks after they were sent become
 * `rejected`. The table is a sequence of rows; times are milliseconds.
 */
module Overdue {
  import opened Outcomes
  import opened Db
  import Jobs

  const MsPerDay: int := 24 * 60 * 60 * 1000

  /** Applications sent at or before this instant are overdue at `now`. */
  function Threshold(now: int): int {
    now - Jobs.OverdueDays * MsPerDay
  }

  predicate AwaitsAnswer(s: JobStatus) {
    s == Applied || s == NoAnswer
  }

  /** The update's filter: this user, a waiting status, and an application date not after the threshold. */
  predicate IsCandidate(row: JobApplication, userId: string, now: int) {
    row.userId == userId && AwaitsAnswer(row.status) && row.appliedAt.Some? && row.appliedAt.value <= Threshold(now)
  }

  /** The rows after the sweep; without a signed-in user nothing is updated. */
  function Sweep(rows: seq<JobApplication>, user: Option<string>, now: int): (r: seq<JobApplication>)
    ensures |r| == |rows|
    ensures forall i | 0 <= i < |rows| :: (r[i] != rows[i] <==> user.Some? && IsCandidate(rows[i], user.value, now))
    ensures forall i | 0 <= i < |rows| && r[i] != rows[i] :: r[i].status == Rejected && r[i].statusUpdatedAt == Some(now)
    ensures forall i | 0 <= i < |rows| ::
      r[i].(status := rows[i].status, statusUpdatedAt := rows[i].statusUpdatedAt) == rows[i]
  {
    if user.None? then rows
    else
      seq(|rows|, i requires 0 <= i < |rows| =>
        if IsCandidate(rows[i], user.value, now)
        then rows[i].(status := Rejected, statusUpdatedAt := Some(now))
        else rows[i])
  }

  /** Without a user the table is untouched. */
  lemma NoUserNoChange(rows: seq<JobApplication>, now: int)
    ensures Sweep(rows, None, now) == rows
  {
  }

  /** Other users' rows are never touched. */
  lemma OtherUsersUntouched(rows: seq<JobApplication>, userId: string, now: int, i: int)
    requires 0 <= i < |rows| && rows[i].userId != userId
    ensures Sweep(rows, Some(userId), now)[i] == rows[i]
  {
  }

  /** After a sweep no candidate is left. */
  lemma NoCandidateLeft(rows: seq<JobApplication>, userId: string, now: int)
    ensures forall i | 0 <= i < |rows| :: !IsCandidate(Sweep(rows, Some(userId), now)[i], userId, now)
  {
  }

  /** A second sweep at the same instant changes nothing: `rejected` is not a waiting status. */
  lemma SweepIdempotent(rows: seq<JobApplication>, user: Option<string>, now: int)
    ensures Sweep(Sweep(rows, user, now), user, now) == Sweep(rows, user, now)
  {
    var once := Sweep(rows, user, now);
    if user.Some? {
      NoCandidateLeft(rows, user.value, now);
    }
    assert forall i | 0 <= i < |once| :: Sweep(once, user, now)[i] == once[i];
  }

  /** Interviews, offers, proposals and rejections are never changed, however old. */
  lemma SettledStatusesKept(rows: seq<JobApplication>, user: Option<string>, now: int, i: int)
    requires 0 <= i < |rows| && !AwaitsAnswer(rows[i].status)
    ensures Sweep(rows, user, now)[i] == rows[i]
  {
  }

  // ---------------------------------------------------------------------------
  // The sweep against `isOverdue`

  /**
   * With the application sent at the start of day `day` and the sweep run
   * during day `today`, whatever `isOverdue` calls overdue is swept.
   */
  lemma OverdueIsSwept(day: int, today: int, t: int)
    requires 0 <= t < MsPerDay
    requires Jobs.IsOverdue(Some(day), today)
    ensures day * MsPerDay <= Threshold(today * MsPerDay + t)
  {
    assert today - day >= 22;
    assert (today - day) * MsPerDay >= 22 * MsPerDay;
  }

  /**
   * The two disagree on day 21: the sweep already rejects an application
   * that `isOverdue` does not yet call overdue.
   */
  lemma DayTwentyOneGap(day: int, today: int, t: int)
    requires 0 <= t < MsPerDay && today - day == 21
    ensures !Jobs.IsOverdue(Some(day), today)
    ensures day * MsPerDay <= Threshold(today * MsPerDay + t)
  {
    assert today * MsPerDay - day * MsPerDay == 21 * MsPerDay;
  }

  /** Before day 21 neither calls the application overdue. */
  lemma NotYetDue(day: int, today: int, t: int)
    requires 0 <= t < MsPerDay && today - day <= 20
    ensures !Jobs.IsOverdue(Some(day), today)
    ensures day * MsPerDay > Threshold(today * MsPerDay + t)
  {
    assert (today - day) * MsPerDay <= 20 * MsPerDay;
  }
}
