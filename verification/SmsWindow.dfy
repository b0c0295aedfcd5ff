/** The daily hours in which texts may leave, in the local time of the campaign. */
module SmsWindow {
  import opened Prelude

  const HOUR: int := 3600 * SECOND

  // The configured hours; the shipped configuration opens at 8 and closes at 20.
  datatype Hours = Hours(opens: nat, closes: nat)

  const SHIPPED: Hours := Hours(8, 20)

  function HourOf(local: Time): int {
    local % DAY / HOUR
  }

  predicate InWindow(h: Hours, local: Time) {
    h.opens <= HourOf(local) < h.closes
  }

  // The opening of today before it, the opening of tomorrow otherwise.
  function NextStart(h: Hours, local: Time): Time
    requires h.opens < 24
  {
    var opening := local - local % DAY + h.opens * HOUR;
    if HourOf(local) < h.opens then opening else opening + DAY
  }

  lemma HourBounds(local: Time, hour: nat)
    ensures HourOf(local) < hour <==> local % DAY < hour * HOUR
  {
  }

  // The instant `offset` after the midnight of `day`.
  lemma SameDay(day: int, offset: int)
    requires 0 <= offset < DAY
    ensures (day * DAY + offset) % DAY == offset
  {
  }

  /** Outside the window, the instant a batch is deferred to is in the window and no instant between now
      and then is: it is the earliest one. */
  lemma NextStartIsEarliest(h: Hours, local: Time)
    requires h.opens < h.closes <= 24 && !InWindow(h, local)
    ensures var start := NextStart(h, local);
      local < start && InWindow(h, start) && forall t :: local <= t < start ==> !InWindow(h, t)
  {
    var start := NextStart(h, local);
    var day := local / DAY;
    var morning := if HourOf(local) < h.opens then day else day + 1;
    assert start == morning * DAY + h.opens * HOUR;
    SameDay(morning, h.opens * HOUR);
    HourBounds(local, h.opens);
    HourBounds(local, h.closes);
    forall t | local <= t < start ensures !InWindow(h, t) {
      HourBounds(t, h.opens);
      HourBounds(t, h.closes);
      if t < morning * DAY {
        SameDay(day, t - day * DAY);
      } else {
        SameDay(morning, t - morning * DAY);
      }
    }
  }

  /** A deferred batch picked up `late` after its instant, by less than a day, runs if and only if it is
      late by less than the length of the window. With no delay it runs unless the configured window is
      empty, in which case it is deferred for ever. */
  lemma RunsAfterDeferralIff(h: Hours, local: Time, late: int)
    requires h.opens < 24 && h.closes <= 24 && 0 <= late < DAY
    ensures InWindow(h, NextStart(h, local) + late) <==> late < (h.closes - h.opens) * HOUR
  {
    var start := NextStart(h, local);
    var day := local / DAY;
    var morning := if HourOf(local) < h.opens then day else day + 1;
    assert start == morning * DAY + h.opens * HOUR;
    HourBounds(start + late, h.opens);
    HourBounds(start + late, h.closes);
    if h.opens * HOUR + late < DAY {
      SameDay(morning, h.opens * HOUR + late);
    } else {
      SameDay(morning + 1, h.opens * HOUR + late - DAY);
      assert start + late == (morning + 1) * DAY + (h.opens * HOUR + late - DAY);
    }
  }

  // With the shipped configuration texts may leave from 8:00 to before 20:00.
  lemma ShippedHours(local: Time)
    ensures InWindow(SHIPPED, local) <==> 8 * HOUR <= local % DAY < 20 * HOUR
  {
    HourBounds(local, 8);
    HourBounds(local, 20);
  }

  // The attempts of one batch: each is picked up some time after the instant the last one was deferred to.
  function Attempts(h: Hours, first: Time, lateness: seq<nat>): Time
    requires h.opens < 24
  {
    if lateness == [] then first
    else NextStart(h, Attempts(h, first, lateness[..|lateness| - 1])) + lateness[|lateness| - 1]
  }

  /** With the shipped hours a batch that is picked up less than twelve hours after its instant is never
      deferred twice in a row. */
  lemma DeferredAtMostOnce(first: Time, lateness: seq<nat>)
    requires lateness != [] && lateness[|lateness| - 1] < 12 * HOUR
    ensures InWindow(SHIPPED, Attempts(SHIPPED, first, lateness))
  {
    var n := |lateness| - 1;
    RunsAfterDeferralIff(SHIPPED, Attempts(SHIPPED, first, lateness[..n]), lateness[n]);
  }
}
