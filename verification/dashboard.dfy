/**
 * Day navigation on the dashboard: the selected date moves one day at a time, but
 * only inside the journey's days and never past today. Dates are day numbers; the
 * component compares them as `Date` values, which `Calendar` relates to days.
 */
module Dashboard {
  import opened Wrappers
  import opened Calendar
  import opened Records

  /** The journey's last day: start plus `duration_days - 1`. */
  function EndDate(j: Journey): int
  {
    j.startDate + j.durationDays - 1
  }

  /** `selected` is one of the journey's days and not after `today`. */
  predicate InWindow(j: Journey, selected: int, today: int)
  {
    j.startDate <= selected <= EndDate(j) && selected <= today
  }

  /** The date selected after `changeDate(days)` on the day `today`. */
  function ChangedDate(journey: Option<Journey>, selected: int, days: int, today: int): (r: int)
    ensures journey.Some? && InWindow(journey.value, selected, today) ==> InWindow(journey.value, r, today)
    ensures r != selected ==> journey.Some? && r == selected + days && InWindow(journey.value, r, today)
    ensures journey.Some? && InWindow(journey.value, selected + days, today) ==> r == selected + days
  {
    if journey.Some? && InWindow(journey.value, selected + days, today) then selected + days else selected
  }

  /** The dates reached by a series of `changeDate` calls, each made on its own day. */
  datatype Move = Move(days: int, today: int)

  function Navigate(journey: Option<Journey>, selected: int, moves: seq<Move>): int
    decreases |moves|
  {
    if moves == [] then selected
    else Navigate(journey, ChangedDate(journey, selected, moves[0].days, moves[0].today), moves[1..])
  }

  /**
   * Starting inside the window, no series of moves made on days that never go back
   * in time leaves it.
   */
  lemma {:induction false} NavigationStaysInWindow(j: Journey, selected: int, today: int, moves: seq<Move>)
    requires InWindow(j, selected, today)
    requires forall k :: 0 <= k < |moves| ==> today <= moves[k].today
    requires forall k, l :: 0 <= k < l < |moves| ==> moves[k].today <= moves[l].today
    ensures InWindow(j, Navigate(Some(j), selected, moves), if moves == [] then today else moves[|moves| - 1].today)
    decreases |moves|
  {
    if moves != [] {
      var next := ChangedDate(Some(j), selected, moves[0].days, moves[0].today);
      assert InWindow(j, selected, moves[0].today);
      NavigationStaysInWindow(j, next, moves[0].today, moves[1..]);
      if |moves| > 1 {
        assert moves[1..][|moves| - 2] == moves[|moves| - 1];
      }
    }
  }

  /**
   * `getDayNumber`: the number of whole days from the start to the selected date,
   * plus one; 0 without a journey.
   */
  function GetDayNumber(journey: Option<Journey>, selectedDate: int): (n: int)
    ensures journey.None? ==> n == 0
    ensures journey.Some? ==> n == selectedDate - journey.value.startDate + 1
    ensures journey.Some? && journey.value.startDate <= selectedDate <= EndDate(journey.value) ==>
              1 <= n <= journey.value.durationDays
  {
    if journey.None? then 0
    else WholeDaysSince(Midnight(selectedDate), journey.value.startDate) + 1
  }

  /** `isToday`: the instant `now` falls on the selected date. */
  function IsToday(selectedDate: int, now: Instant): (r: bool)
    ensures r <==> Millis(Midnight(selectedDate)) <= Millis(now) < Millis(Midnight(selectedDate + 1))
  {
    CompareWithInstant(selectedDate, now);
    CompareWithInstant(selectedDate + 1, now);
    selectedDate == now.day
  }

  /** `canNavigateBack`: the selected date is after the start. */
  function CanNavigateBack(journey: Option<Journey>, selectedDate: int): (r: bool)
    ensures r <==> journey.Some? && selectedDate > journey.value.startDate
  {
    if journey.None? then false
    else
      CompareMidnights(journey.value.startDate, selectedDate);
      Millis(Midnight(selectedDate)) > Millis(Midnight(journey.value.startDate))
  }

  /**
   * `canNavigateForward`, as written: the selected date's midnight is before the end
   * and before the current instant, which it also is on today's own date once the
   * day has begun.
   */
  function CanNavigateForward(journey: Option<Journey>, selectedDate: int, now: Instant): (r: bool)
    ensures r <==> journey.Some? && selectedDate < EndDate(journey.value)
                   && (selectedDate < now.day || (selectedDate == now.day && now.ms > 0))
  {
    if journey.None? then false
    else
      var end := EndDate(journey.value);
      CompareMidnights(selectedDate, end);
      CompareWithInstant(selectedDate, now);
      Millis(Midnight(selectedDate)) < Millis(Midnight(end)) && Millis(Midnight(selectedDate)) < Millis(now)
  }

  /** Inside the window the back button is enabled exactly when moving back one day succeeds. */
  lemma BackButtonMatchesMove(j: Journey, selected: int, today: int)
    requires InWindow(j, selected, today)
    ensures CanNavigateBack(Some(j), selected) <==> ChangedDate(Some(j), selected, -1, today) != selected
  {
  }

  /**
   * On today's date, after midnight and before the journey's last day, the forward
   * button is enabled but moving forward one day leaves the date where it is.
   */
  lemma ForwardButtonEnabledOnToday(j: Journey, now: Instant)
    requires now.ms > 0 && j.startDate <= now.day < EndDate(j)
    ensures CanNavigateForward(Some(j), now.day, now)
    ensures ChangedDate(Some(j), now.day, 1, now.day) == now.day
  {
  }

  /** `canNavigateForward` comparing day numbers, as the move it guards does. */
  function CanNavigateForwardCorrected(journey: Option<Journey>, selectedDate: int, today: int): (r: bool)
    ensures journey.Some? && InWindow(journey.value, selectedDate, today) ==>
              (r <==> ChangedDate(journey, selectedDate, 1, today) != selectedDate)
  {
    journey.Some? && selectedDate < EndDate(journey.value) && selectedDate < today
  }

  /** The dashboard's journey and selected date. */
  class DashboardView {
    var journey: Option<Journey>
    var selectedDate: int
    var loading: bool

    /** The selected date starts as the date of `now`; the view shows the spinner until the first load. */
    constructor(now: Instant)
      ensures journey == None && selectedDate == now.day && loading
    {
      journey := None;
      selectedDate := now.day;
      loading := true;
    }

    /**
     * `loadData`: the journey query's answer replaces the journey only when it found one;
     * the spinner is then hidden whatever the answer.
     */
    method LoadData(journeyData: Option<Journey>)
      modifies this
      ensures journey == if journeyData.Some? then journeyData else old(journey)
      ensures selectedDate == old(selectedDate) && !loading
    {
      if journeyData.Some? {
        journey := journeyData;
      }
      loading := false;
    }

    /**
     * `changeDate`: the new date is kept when its midnight is not before the start,
     * not after the end and not after the current instant.
     */
    method ChangeDate(days: int, now: Instant)
      modifies this
      ensures journey == old(journey) && loading == old(loading)
      ensures selectedDate == ChangedDate(old(journey), old(selectedDate), days, now.day)
    {
      if journey.None? {
        return;
      }
      var newDate := selectedDate + days;
      var startDate := journey.value.startDate;
      var endDate := startDate + journey.value.durationDays - 1;
      CompareMidnights(startDate, newDate);
      CompareMidnights(newDate, endDate);
      CompareWithInstant(newDate, now);
      if Millis(Midnight(newDate)) >= Millis(Midnight(startDate))
         && Millis(Midnight(newDate)) <= Millis(Midnight(endDate))
         && Millis(Midnight(newDate)) <= Millis(now)
      {
        selectedDate := newDate;
      }
    }
  }
}
