/** `POST /api/save-work-session`: validate the body and insert one work-session row. */
module WorkSession {
  import opened Wrappers
  import opened Schema

  /**
   * A time field of the body: absent or falsy, or given; a given value that
   * does not parse as a date is `Given(None)`.
   */
  datatype Stamp = Absent | Given(ms: Option<int>)

  /** `Math.round`: the nearest integer, halves rounded up. */
  function Round(x: real): (r: int)
    ensures r as real - 0.5 <= x < r as real + 0.5
  {
    (x + 0.5).Floor
  }

  /** Rounding leaves whole numbers alone and never moves by more than a half. */
  lemma RoundFacts(x: real, n: int)
    ensures Round(n as real) == n
    ensures x == n as real + 0.5 ==> Round(x) == n + 1
  {
  }

  /**
   * The handler. `durationMinutes` is None when the field is undefined;
   * `insertFails` says whether the insert errors.
   */
  method Post(db: Db, user: Option<UserId>, startedAt: Stamp, endedAt: Stamp, durationMinutes: Option<real>, insertFails: bool)
    returns (reply: Reply<()>)
    modifies db`work
    ensures user.None? ==> reply == Fail(401, "Unauthorized") && db.work == old(db.work)
    ensures user.Some? && (startedAt.Absent? || endedAt.Absent? || durationMinutes.None?) ==>
              reply == Fail(400, "Missing required fields") && db.work == old(db.work)
    ensures user.Some? && startedAt.Given? && endedAt.Given? && durationMinutes.Some?
            && (startedAt.ms.None? || endedAt.ms.None?) ==>
              reply == Fail(500, "Invalid time value") && db.work == old(db.work)
    ensures user.Some? && startedAt.Given? && endedAt.Given? && durationMinutes.Some?
            && startedAt.ms.Some? && endedAt.ms.Some? ==>
              var row := WorkRow(user.value, DayOf(startedAt.ms.value), Round(durationMinutes.value),
                                 startedAt.ms.value, endedAt.ms.value);
              && (insertFails ==> reply == Fail(500, "Failed to save work session") && db.work == old(db.work))
              && (!insertFails ==> reply == Ok(()) && db.work == old(db.work) + [row])
  {
    if user.None? {
      return Fail(401, "Unauthorized");
    }
    if startedAt.Absent? || endedAt.Absent? || durationMinutes.None? {
      return Fail(400, "Missing required fields");
    }
    if startedAt.ms.None? {
      return Fail(500, "Invalid time value");
    }
    var date := DayOf(startedAt.ms.value);
    if endedAt.ms.None? {
      return Fail(500, "Invalid time value");
    }
    if insertFails {
      return Fail(500, "Failed to save work session");
    }
    db.work := db.work + [WorkRow(user.value, date, Round(durationMinutes.value), startedAt.ms.value, endedAt.ms.value)];
    return Ok(());
  }
}
