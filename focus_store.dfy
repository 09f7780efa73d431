/**
 * The focus store: whether the user is focusing, since when, the time of the
 * last activity, and the focus time credited today. `now` stands for
 * `Date.now()` at the call.
 */
module FocusStore {
  import opened Wrappers

  /** `INACTIVITY_THRESHOLD`: five minutes in milliseconds. */
  const InactivityThreshold: int := 5 * 60 * 1000

  /** A number is truthy when present and not zero. */
  predicate NumTruthy(o: Option<int>)
  {
    o.Some? && o.value != 0
  }

  class Store {
    var isFocusing: bool
    var focusStartTime: Option<int>
    var totalFocusToday: int
    var lastActivityTime: int

    /**
     * What every action keeps: focusing exactly while a start time is held,
     * and that start no later than the last activity.
     */
    predicate Valid()
      reads this
    {
      && (isFocusing <==> focusStartTime.Some?)
      && (focusStartTime.Some? ==> focusStartTime.value <= lastActivityTime)
    }

    /** The store as created: not focusing, nothing credited. */
    constructor (now: int)
      ensures !isFocusing && focusStartTime == None && totalFocusToday == 0 && lastActivityTime == now
      ensures Valid()
    {
      isFocusing := false;
      focusStartTime := None;
      totalFocusToday := 0;
      lastActivityTime := now;
    }

    /** `startFocus`: focusing from now, and now is the last activity. */
    method StartFocus(now: int)
      modifies this
      ensures isFocusing && focusStartTime == Some(now) && lastActivityTime == now
      ensures totalFocusToday == old(totalFocusToday)
      ensures Valid()
    {
      isFocusing := true;
      focusStartTime := Some(now);
      lastActivityTime := now;
    }

    /**
     * `stopFocus`: with a start time, credits the time since the start and
     * clears the session; without one, changes nothing. On a clock that does
     * not run backwards the credit is never negative.
     */
    method StopFocus(now: int)
      modifies this
      ensures NumTruthy(old(focusStartTime)) ==>
                && !isFocusing && focusStartTime == None
                && totalFocusToday == old(totalFocusToday) + (now - old(focusStartTime).value)
                && lastActivityTime == old(lastActivityTime)
      ensures !NumTruthy(old(focusStartTime)) ==>
                && isFocusing == old(isFocusing) && focusStartTime == old(focusStartTime)
                && totalFocusToday == old(totalFocusToday) && lastActivityTime == old(lastActivityTime)
      ensures old(Valid()) ==> Valid()
      ensures old(Valid()) && now >= old(lastActivityTime) ==> totalFocusToday >= old(totalFocusToday)
    {
      if NumTruthy(focusStartTime) {
        var sessionDuration := now - focusStartTime.value;
        isFocusing := false;
        focusStartTime := None;
        totalFocusToday := totalFocusToday + sessionDuration;
      }
    }

    /**
     * `updateActivity`: while focusing, an idle gap longer than the threshold
     * ends the session and credits only the time up to the last activity;
     * a shorter gap records now as the last activity. Not focusing, nothing
     * changes.
     */
    method UpdateActivity(now: int)
      modifies this
      ensures old(isFocusing) && NumTruthy(old(focusStartTime)) && now - old(lastActivityTime) > InactivityThreshold ==>
                && !isFocusing && focusStartTime == None
                && totalFocusToday == old(totalFocusToday) + (old(lastActivityTime) - old(focusStartTime).value)
                && lastActivityTime == old(lastActivityTime)
      ensures old(isFocusing) && NumTruthy(old(focusStartTime)) && now - old(lastActivityTime) <= InactivityThreshold ==>
                && isFocusing && focusStartTime == old(focusStartTime)
                && totalFocusToday == old(totalFocusToday) && lastActivityTime == now
      ensures !(old(isFocusing) && NumTruthy(old(focusStartTime))) ==>
                && isFocusing == old(isFocusing) && focusStartTime == old(focusStartTime)
                && totalFocusToday == old(totalFocusToday) && lastActivityTime == old(lastActivityTime)
      ensures old(Valid()) && now >= old(lastActivityTime) ==> Valid()
      ensures old(Valid()) ==> totalFocusToday >= old(totalFocusToday)
    {
      if isFocusing && NumTruthy(focusStartTime) {
        if now - lastActivityTime > InactivityThreshold {
          var sessionDuration := lastActivityTime - focusStartTime.value;
          isFocusing := false;
          focusStartTime := None;
          totalFocusToday := totalFocusToday + sessionDuration;
        } else {
          lastActivityTime := now;
        }
      }
    }

    /** `resetDailyFocus`: today's total back to zero, nothing else touched. */
    method ResetDailyFocus()
      modifies this
      ensures totalFocusToday == 0
      ensures isFocusing == old(isFocusing) && focusStartTime == old(focusStartTime)
      ensures lastActivityTime == old(lastActivityTime)
      ensures old(Valid()) ==> Valid()
    {
      totalFocusToday := 0;
    }
  }
}
