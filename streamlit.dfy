/** streamlit_app.py: the older storefront with its own service list, a
    slot endpoint that filters with a fixed 30-minute duration, and a
    booking endpoint that checks fields, service and availability before
    it creates the calendar event. Dates are day numbers, times minutes
    since midnight; the calendar's answers are inputs. */
module Streamlit {
  import opened Wrappers
  import opened Seqs
  import opened Catalogue
  import opened Calendar
  import Studio

  /** `SERVICES` of streamlit_app.py; two names differ from app.py's list. */
  const StreamlitServices: seq<Service> := [
    Service("Gel Polish", "לק ג'ל", 120, 60),
    Service("Anatomical Build", "בנייה אנטומית", 140, 75),
    Service("Gel Fill", "מילוי ג'ל", 150, 60),
    Service("Single Nail Extension", "הארכת ציפורן בודדת (מעל 2)", 10, 10),
    Service("Building", "בנייה", 300, 120),
    Service("Eyebrows", "גבות", 50, 20),
    Service("Mustache", "שפם", 15, 10),
    Service("Eyebrow Tinting", "צביעת גבות", 30, 15)
  ]

  /** `filter_available_slots`' default duration, which this endpoint never
      overrides. */
  const DefaultDuration := 30

  /** What the slot endpoint offers on an open day: the 09:00 to 20:00
      grid, less what is busy for 30 minutes (all of it when the lookup
      fails). */
  function OfferedSlots(lookup: Option<seq<CalEvent>>): seq<int> {
    var grid := Studio.Grid(Studio.OpenTime, Studio.CloseTime);
    if lookup.None? then grid else FreeSlots(grid, DefaultDuration, BusySlots(lookup.value))
  }

  /** The offer keeps grid order; a grid slot is offered exactly when it is
      free for 30 minutes, whatever the service, or when the lookup failed. */
  lemma OfferedSlotsSpec(lookup: Option<seq<CalEvent>>)
    ensures IsSubsequence(OfferedSlots(lookup), Studio.Grid(Studio.OpenTime, Studio.CloseTime))
    ensures forall t :: t in OfferedSlots(lookup) <==>
              t in Studio.Grid(Studio.OpenTime, Studio.CloseTime)
              && (lookup.Some? ==> SlotFree(t, DefaultDuration, BusySlots(lookup.value)))
  {
    var grid := Studio.Grid(Studio.OpenTime, Studio.CloseTime);
    if lookup.None? {
      SubsequenceReflexive(grid);
    } else {
      var busy := BusySlots(lookup.value);
      FreeSlotsSubsequence(grid, DefaultDuration, busy);
      forall t ensures t in OfferedSlots(lookup) <==> t in grid && SlotFree(t, DefaultDuration, busy) {
        FreeSlotsMember(grid, DefaultDuration, busy, t);
      }
    }
  }

  /** A slot free for a longer appointment is free for a shorter one. */
  lemma ShorterFitsWhereLongerDoes(t: int, d1: int, d2: int, busy: seq<Busy>)
    requires d1 <= d2 && SlotFree(t, d2, busy)
    ensures SlotFree(t, d1, busy)
  {
    forall i | 0 <= i < |busy| ensures !Overlaps(t, t + d1, busy[i]) {
      assert !Overlaps(t, t + d2, busy[i]);
    }
  }

  /** Every slot app.py offers for a service of 30 minutes or more is
      offered here too: this endpoint can only offer more. */
  lemma OffersEverySlotAppOffers(duration: int, lookup: Option<seq<CalEvent>>, blockedTimes: seq<int>, t: int)
    requires duration >= DefaultDuration
    requires t in Studio.AvailableSlots(duration, lookup, blockedTimes)
    ensures t in OfferedSlots(lookup)
  {
    Studio.AvailableSlotsSpec(duration, lookup, blockedTimes);
    OfferedSlotsSpec(lookup);
    if lookup.Some? {
      ShorterFitsWhereLongerDoes(t, DefaultDuration, duration, BusySlots(lookup.value));
    }
  }

  /** `get_available_slots` of streamlit_app.py. `day` is the parse of
      `dateText` (`None` when `strptime` raises). */
  method GetAvailableSlots(dateText: string, day: Option<int>, lookup: Option<seq<CalEvent>>)
    returns (r: Studio.SlotsResponse)
    ensures dateText == [] ==> r == Studio.DateRequired
    ensures dateText != [] && day.None? ==> r == Studio.InvalidDateFormat
    ensures dateText != [] && day.Some? && Studio.ClosedOn(day.value) ==> r == Studio.ClosedDay
    ensures dateText != [] && day.Some? && !Studio.ClosedOn(day.value) ==> r == Studio.Slots(OfferedSlots(lookup))
  {
    if dateText == [] {
      return Studio.DateRequired;
    }
    if day.None? {
      return Studio.InvalidDateFormat;
    }
    var hours := Studio.BusinessHours(Studio.StudioWeekday(day.value));
    if hours.None? {
      return Studio.ClosedDay;
    }
    var allSlots := Studio.SlotGrid(hours.value.0, hours.value.1);
    var available := FilterAvailableSlots(lookup, allSlots, DefaultDuration);
    return Studio.Slots(available);
  }

  datatype BookingOutcome =
    | MissingRequired(field: string)
    | InvalidService
    | SlotTaken
    | CheckRaised
    | CreateFailed
    | Booked(service: Service, eventId: Option<string>)

  /** `book_appointment` of streamlit_app.py. `time` is the parse of the
      requested time (`None` when `strptime` raises), `lookup` the busy
      lookup of `check_availability` (`None` when it raises); either
      failing makes the check raise outside the `try`. `created` is what
      `create_event` returns (`None` when it raises): the event's id, if
      any. */
  function BookAppointment(req: Studio.BookingRequest, time: Option<int>, lookup: Option<seq<CalEvent>>,
                           created: Option<Option<string>>): (r: BookingOutcome)
    ensures r.Booked? <==>
              Studio.MissingField(req).None? && FindService(StreamlitServices, req.service).Some?
              && time.Some? && lookup.Some? && created.Some?
              && SlotFree(time.value, FindService(StreamlitServices, req.service).value.duration,
                          BusySlots(lookup.value))
    ensures r.Booked? ==> Some(r.service) == FindService(StreamlitServices, req.service)
  {
    if Studio.MissingField(req).Some? then MissingRequired(Studio.MissingField(req).value)
    else
      match FindService(StreamlitServices, req.service)
      case None => InvalidService
      case Some(service) =>
        if time.None? || lookup.None? then CheckRaised
        else if !SlotFree(time.value, service.duration, BusySlots(lookup.value)) then SlotTaken
        else if created.None? then CreateFailed
        else Booked(service, created.value)
  }

  /** The event is created only after every check passed: while any check
      fails the outcome does not depend on `create_event` at all. */
  lemma EventCreatedOnlyAfterChecks(req: Studio.BookingRequest, time: Option<int>, lookup: Option<seq<CalEvent>>,
                                    created: Option<Option<string>>, other: Option<Option<string>>)
    ensures var r := BookAppointment(req, time, lookup, created);
            !(r.Booked? || r == CreateFailed) ==> BookAppointment(req, time, lookup, other) == r
  {
  }

  /** A slot offered by the 30-minute filter can still be refused at
      booking time with 409 for a longer service: here a 09:30 event frees
      09:00 for 30 minutes but not for an hour's Gel Polish. */
  lemma OfferedYetTaken(req: Studio.BookingRequest, created: Option<Option<string>>)
    requires Studio.MissingField(req).None? && req.service == "Gel Polish"
    ensures var lookup := Some([Timed(570, 600)]);
            540 in OfferedSlots(lookup) && BookAppointment(req, Some(540), lookup, created) == SlotTaken
  {
    var lookup := Some([Timed(570, 600)]);
    var busy := BusySlots(lookup.value);
    assert busy == [Busy(570, 600)] by {
      assert lookup.value[..0] == [];
    }
    assert SlotFree(540, DefaultDuration, busy);
    assert !SlotFree(540, 60, busy) by {
      assert Overlaps(540, 600, busy[0]);
    }
    OfferedSlotsSpec(lookup);
    Studio.StudioDayGrid();
    assert FindService(StreamlitServices, req.service) == Some(StreamlitServices[0]) by {
      assert Matches(StreamlitServices[0], req.service);
    }
  }
}
