/** The booking endpoints of app.py: the service catalogue and business
    hours, the slot grid and the three filters of `get_available_slots`, the
    admin's blocked-slot map, the guard order of `book_appointment`, the
    same-day rule of `cancel_appointment` and `allowed_file`.
    Dates are day numbers with day 0 = 1970-01-01, a Thursday; times of day
    are minutes since midnight. */
module Studio {
  import opened Wrappers
  import opened Seqs
  import opened Text
  import opened Catalogue
  import opened Calendar

  /** `SERVICES` of app.py. */
  const AppServices: seq<Service> := [
    Service("Gel Polish", "לק ג'ל", 120, 60),
    Service("Anatomical Structure", "מבנה אנטומי", 140, 75),
    Service("Gel Fill", "מילוי ג'ל", 150, 60),
    Service("Single Nail Extension", "הארכת ציפורן בודדת", 10, 10),
    Service("Building", "בנייה", 300, 120),
    Service("Eyebrows", "גבות", 50, 20),
    Service("Mustache", "שפם", 15, 10),
    Service("Eyebrow Tinting", "צביעת גבות", 30, 15)
  ]

  /** 09:00 and 20:00. */
  const OpenTime := 540
  const CloseTime := 1200
  const SlotStep := 30

  /** `date.weekday()`: Monday = 0; the epoch day was a Thursday. */
  function PythonWeekday(day: int): int {
    (day + 3) % 7
  }

  /** The studio's convention, Sunday = 0. */
  function StudioWeekday(day: int): (w: int)
    ensures 0 <= w < 7
  {
    (PythonWeekday(day) + 1) % 7
  }

  /** `BUSINESS_HOURS`: Sunday to Thursday 09:00 to 20:00, Friday and
      Saturday closed. */
  function BusinessHours(weekday: int): Option<(int, int)> {
    if 0 <= weekday <= 4 then Some((OpenTime, CloseTime)) else None
  }

  predicate ClosedOn(day: int) {
    BusinessHours(StudioWeekday(day)).None?
  }

  /** The studio is closed exactly on Fridays (day 1 was one) and Saturdays,
      and the rule repeats every week. */
  lemma ClosedOnFridayAndSaturday(day: int)
    ensures ClosedOn(day) <==> StudioWeekday(day) == 5 || StudioWeekday(day) == 6
    ensures ClosedOn(day) <==> day % 7 == 1 || day % 7 == 2
    ensures ClosedOn(day + 7) == ClosedOn(day)
  {
    assert StudioWeekday(day) == (day + 4) % 7;
    assert StudioWeekday(day + 7) == StudioWeekday(day);
  }

  /** The slots `get_available_slots` generates with `while current < close`. */
  function Grid(open: int, close: int): seq<int>
    decreases close - open
  {
    if open < close then [open] + Grid(open + SlotStep, close) else []
  }

  method SlotGrid(open: int, close: int) returns (slots: seq<int>)
    ensures slots == Grid(open, close)
  {
    slots := [];
    var current := open;
    while current < close
      invariant slots + Grid(current, close) == Grid(open, close)
      decreases close - current
    {
      assert Grid(current, close) == [current] + Grid(current + SlotStep, close);
      slots := slots + [current];
      current := current + SlotStep;
    }
    assert slots + [] == slots;
  }

  /** The grid starts at the opening time, steps by 30 minutes and stays
      strictly before closing, with as many slots as fit. */
  lemma {:induction false} GridShape(open: int, close: int)
    ensures |Grid(open, close)| == if open < close then (close - open + 29) / 30 else 0
    ensures forall i :: 0 <= i < |Grid(open, close)| ==>
              Grid(open, close)[i] == open + 30 * i && Grid(open, close)[i] < close
    decreases close - open
  {
    if open < close {
      GridShape(open + SlotStep, close);
      var g := Grid(open, close);
      var t := Grid(open + SlotStep, close);
      assert g == [open] + t;
      forall i | 0 < i < |g| ensures g[i] == open + 30 * i {
        assert g[i] == t[i - 1];
      }
    }
  }

  /** 09:00 to 20:00 gives 22 slots, 09:00 through 19:30. */
  lemma StudioDayGrid()
    ensures |Grid(OpenTime, CloseTime)| == 22
    ensures Grid(OpenTime, CloseTime)[0] == 540 && Grid(OpenTime, CloseTime)[21] == 1170
  {
    GridShape(OpenTime, CloseTime);
  }

  /** `[s for s in available_slots if s not in blocked_times]`. */
  function RemoveBlocked(slots: seq<int>, blockedTimes: seq<int>): seq<int>
    decreases |slots|
  {
    if slots == [] then []
    else
      var n := |slots| - 1;
      RemoveBlocked(slots[..n], blockedTimes) + (if slots[n] in blockedTimes then [] else [slots[n]])
  }

  lemma {:induction false} RemoveBlockedSpec(slots: seq<int>, blockedTimes: seq<int>)
    ensures IsSubsequence(RemoveBlocked(slots, blockedTimes), slots)
    ensures forall t :: t in RemoveBlocked(slots, blockedTimes) <==> t in slots && t !in blockedTimes
    decreases |slots|
  {
    if slots == [] {
      SubsequenceEmpty(slots);
    } else {
      var n := |slots| - 1;
      var f := RemoveBlocked(slots[..n], blockedTimes);
      RemoveBlockedSpec(slots[..n], blockedTimes);
      SubsequenceSnoc(f, slots[..n], slots[n]);
      assert slots == slots[..n] + [slots[n]];
      assert RemoveBlocked(slots, blockedTimes) == f + (if slots[n] in blockedTimes then [] else [slots[n]]);
      if slots[n] in blockedTimes {
        assert f + [] == f;
      }
    }
  }

  /** The admin's blocked times for a date; a date with no entry has none. */
  function BlockedFor(blocked: map<string, seq<int>>, date: string): seq<int> {
    if date in blocked then blocked[date] else []
  }

  /** The duration `get_available_slots` filters with: the matching
      service's, 60 minutes when no service is named or none matches. */
  function SlotDuration(serviceName: string): int {
    if serviceName == [] then 60
    else
      match FindService(AppServices, serviceName)
      case Some(s) => s.duration
      case None => 60
  }

  /** The slots of an open day: the grid, less what the calendar reports
      busy (all of it when the lookup fails), less the blocked times. */
  function AvailableSlots(duration: int, lookup: Option<seq<CalEvent>>, blockedTimes: seq<int>): seq<int> {
    var grid := Grid(OpenTime, CloseTime);
    var calendarStep := if lookup.None? then grid else FreeSlots(grid, duration, BusySlots(lookup.value));
    RemoveBlocked(calendarStep, blockedTimes)
  }

  /** The answer keeps grid order, and a grid slot is offered exactly when it
      is not blocked and, if the calendar answered, free for the whole
      duration. Blocked times go even when the calendar step fell back. */
  lemma AvailableSlotsSpec(duration: int, lookup: Option<seq<CalEvent>>, blockedTimes: seq<int>)
    ensures IsSubsequence(AvailableSlots(duration, lookup, blockedTimes), Grid(OpenTime, CloseTime))
    ensures forall t :: t in AvailableSlots(duration, lookup, blockedTimes) <==>
              t in Grid(OpenTime, CloseTime) && t !in blockedTimes
              && (lookup.Some? ==> SlotFree(t, duration, BusySlots(lookup.value)))
  {
    var grid := Grid(OpenTime, CloseTime);
    var calendarStep := if lookup.None? then grid else FreeSlots(grid, duration, BusySlots(lookup.value));
    RemoveBlockedSpec(calendarStep, blockedTimes);
    if lookup.Some? {
      FreeSlotsSubsequence(grid, duration, BusySlots(lookup.value));
      SubsequenceTransitive(AvailableSlots(duration, lookup, blockedTimes), calendarStep, grid);
      forall t ensures t in calendarStep <==> t in grid && SlotFree(t, duration, BusySlots(lookup.value)) {
        FreeSlotsMember(grid, duration, BusySlots(lookup.value), t);
      }
    }
  }

  datatype SlotsResponse = DateRequired | InvalidDateFormat | ClosedDay | Slots(slots: seq<int>)

  /** `get_available_slots`. `dateText` is the `date` argument and `day` its
      parse (`None` when `strptime` raises); the calendar lookup and the
      blocked-slot file are inputs. */
  method GetAvailableSlots(dateText: string, day: Option<int>, serviceName: string,
                           lookup: Option<seq<CalEvent>>, blocked: map<string, seq<int>>)
    returns (r: SlotsResponse)
    ensures dateText == [] ==> r == DateRequired
    ensures dateText != [] && day.None? ==> r == InvalidDateFormat
    ensures dateText != [] && day.Some? && ClosedOn(day.value) ==> r == ClosedDay
    ensures dateText != [] && day.Some? && !ClosedOn(day.value) ==>
              r == Slots(AvailableSlots(SlotDuration(serviceName), lookup, BlockedFor(blocked, dateText)))
  {
    if dateText == [] {
      return DateRequired;
    }
    var duration := ServiceDuration(serviceName);
    if day.None? {
      return InvalidDateFormat;
    }
    var hours := BusinessHours(StudioWeekday(day.value));
    if hours.None? {
      return ClosedDay;
    }
    var allSlots := SlotGrid(hours.value.0, hours.value.1);
    var available := FilterAvailableSlots(lookup, allSlots, duration);
    var blockedTimes := BlockedFor(blocked, dateText);
    if blockedTimes != [] {
      available := RemoveBlocked(available, blockedTimes);
    } else {
      NothingBlockedKeepsAll(available);
    }
    return Slots(available);
  }

  /** The service lookup of `get_available_slots`, defaulting to 60. */
  method ServiceDuration(serviceName: string) returns (duration: int)
    ensures duration == SlotDuration(serviceName)
  {
    duration := 60;
    if serviceName != [] {
      var s := LookupService(AppServices, serviceName);
      if s.Some? {
        duration := s.value.duration;
      }
    }
  }

  lemma {:induction false} NothingBlockedKeepsAll(slots: seq<int>)
    ensures RemoveBlocked(slots, []) == slots
    decreases |slots|
  {
    if slots != [] {
      var n := |slots| - 1;
      NothingBlockedKeepsAll(slots[..n]);
      assert slots == slots[..n] + [slots[n]];
    }
  }

  /** `update_blocked_slots` on the loaded map: a non-empty list replaces the
      date's entry, an empty one removes it. */
  function UpdatedBlocked(blocked: map<string, seq<int>>, date: string, slots: seq<int>): map<string, seq<int>> {
    if slots != [] then blocked[date := slots] else blocked - {date}
  }

  /** An update changes the blocked times of its own date only. */
  lemma UpdateTouchesOneDate(blocked: map<string, seq<int>>, date: string, slots: seq<int>, other: string)
    ensures BlockedFor(UpdatedBlocked(blocked, date, slots), other) ==
            if other == date then slots else BlockedFor(blocked, other)
  {
  }

  /** The admin's blocked-slot file as an object whose map is updated in
      place. */
  class BlockedSlots {
    var blocked: map<string, seq<int>>

    constructor ()
      ensures blocked == map[]
    {
      blocked := map[];
    }

    /** A request without a date is refused and changes nothing. */
    method Update(date: Option<string>, slots: seq<int>) returns (ok: bool)
      modifies this
      ensures ok == date.Some?
      ensures date.None? ==> blocked == old(blocked)
      ensures date.Some? ==> blocked == UpdatedBlocked(old(blocked), date.value, slots)
    {
      if date.None? {
        return false;
      }
      if slots != [] {
        blocked := blocked[date.value := slots];
      } else {
        blocked := blocked - {date.value};
      }
      return true;
    }
  }

  /** The request body of `book_appointment`; an absent or empty field is `""`. */
  datatype BookingRequest = BookingRequest(name: string, phone: string, email: string,
                                           service: string, date: string, time: string,
                                           notes: string)

  /** The first required field that is missing, in the order the endpoint
      checks them. */
  function MissingField(req: BookingRequest): (r: Option<string>)
    ensures r.None? <==> req.name != [] && req.phone != [] && req.email != []
                         && req.service != [] && req.date != [] && req.time != []
  {
    if req.name == [] then Some("name")
    else if req.phone == [] then Some("phone")
    else if req.email == [] then Some("email")
    else if req.service == [] then Some("service")
    else if req.date == [] then Some("date")
    else if req.time == [] then Some("time")
    else None
  }

  /** The horizon rule: at most 30 days ahead, with no lower bound. */
  predicate WithinHorizon(day: int, today: int) {
    day <= today + 30
  }

  /** What the storage back-end answers during a booking: the database path
      (customer found or created, active future appointments, appointment
      row inserted) or the calendar-only path (an existing future booking
      for the phone). */
  datatype Backend =
    | Database(customerReady: bool, activeCount: int, appointmentStored: bool)
    | CalendarOnly(hasExisting: bool)

  datatype BookingOutcome =
    | InvalidJson
    | MissingRequired(field: string)
    | InvalidDate
    | TooFarAhead
    | InvalidService
    | CustomerError
    | TooManyAppointments
    | HasAppointment
    | SlotTaken
    | AppointmentError
    | Booked(service: Service, eventId: Option<string>)

  /** `book_appointment`. `day` is the parse of the date (`None` when
      `strptime` raises), `available` the live availability re-check
      (`None` when it raises), `eventId` the created event's id (`None` when
      creation raises or returns no id). `catalogue` is the service list,
      `AppServices` in the endpoint. */
  function BookAppointment(catalogue: seq<Service>, data: Option<BookingRequest>, day: Option<int>, today: int,
                           backend: Backend, available: Option<bool>,
                           eventId: Option<string>): (r: BookingOutcome)
    ensures r.Booked? <==>
              data.Some? && MissingField(data.value).None?
              && day.Some? && day.value <= today + 30
              && FindService(catalogue, data.value.service).Some?
              && available != Some(false)
              && (match backend
                  case Database(ready, count, stored) => ready && count < 2 && stored
                  case CalendarOnly(existing) => !existing)
    ensures r.Booked? ==> Some(r.service) == FindService(catalogue, data.value.service)
  {
    if data.None? then InvalidJson
    else
      var req := data.value;
      if MissingField(req).Some? then MissingRequired(MissingField(req).value)
      else if day.None? then InvalidDate
      else if !WithinHorizon(day.value, today) then TooFarAhead
      else
        match FindService(catalogue, req.service)
        case None => InvalidService
        case Some(service) =>
          match backend
          case Database(customerReady, activeCount, stored) =>
            if !customerReady then CustomerError
            else if activeCount >= 2 then TooManyAppointments
            else if available == Some(false) then SlotTaken
            else if !stored then AppointmentError
            else Booked(service, eventId)
          case CalendarOnly(hasExisting) =>
            if hasExisting then HasAppointment
            else if available == Some(false) then SlotTaken
            else Booked(service, eventId)
  }

  /** A failing availability re-check or event creation never rejects or
      undoes a booking: the outcome is the one a free slot would give. */
  lemma CalendarErrorsNeverReject(catalogue: seq<Service>, data: Option<BookingRequest>, day: Option<int>, today: int,
                                  backend: Backend, eventId: Option<string>)
    ensures BookAppointment(catalogue, data, day, today, backend, None, eventId)
            == BookAppointment(catalogue, data, day, today, backend, Some(true), eventId)
    ensures BookAppointment(catalogue, data, day, today, backend, None, eventId).Booked? ==
            BookAppointment(catalogue, data, day, today, backend, None, None).Booked?
  {
  }

  /** Guards run in order, the first failure wins: a request failing the
      horizon reports that, whatever the service, the back-end and the
      slot. */
  lemma HorizonCheckedBeforeServiceAndSlot(catalogue: seq<Service>, req: BookingRequest, day: int, today: int,
                                           backend: Backend, available: Option<bool>,
                                           eventId: Option<string>)
    requires MissingField(req).None? && day > today + 30
    ensures BookAppointment(catalogue, Some(req), Some(day), today, backend, available, eventId) == TooFarAhead
  {
  }

  /** The answer of `cancel_appointment`. */
  datatype CancelOutcome = MissingId | NotFound | SameDayBlocked | Cancelled | CancelFailed

  /** `cancel_appointment`: the stripped id is required, the event must be
      found (`eventDay` is its start date in Israel time, `None` when the
      lookup raises), an event on today's date cannot be cancelled, and the
      delete follows `cancel_event`. */
  function CancelAppointment(eventId: string, eventDay: Option<int>, today: int,
                             response: DeleteResponse): (r: CancelOutcome)
    ensures r == Cancelled ==> Strip(eventId) != [] && eventDay.Some? && eventDay.value != today
    ensures Strip(eventId) != [] && eventDay.Some? && eventDay.value != today ==>
              (r == Cancelled <==> response.Deleted? || response == HttpStatus(404))
  {
    if Strip(eventId) == [] then MissingId
    else if eventDay.None? then NotFound
    else if eventDay.value == today then SameDayBlocked
    else if CancelEvent(response) then Cancelled
    else CancelFailed
  }

  const AllowedExtensions: set<string> := {"jpg", "jpeg", "png", "webp"}

  /** The text after the last dot, `None` when there is no dot
      (`filename.rsplit('.', 1)[1]`). */
  function AfterLastDot(s: string): (r: Option<string>)
    ensures r.Some? ==> '.' !in r.value
    decreases |s|
  {
    if s == [] then None
    else if s[|s| - 1] == '.' then Some([])
    else
      match AfterLastDot(s[..|s| - 1])
      case None => None
      case Some(e) => Some(e + [s[|s| - 1]])
  }

  /** `allowed_file`. */
  predicate AllowedFile(filename: string) {
    var ext := AfterLastDot(filename);
    ext.Some? && Lower(ext.value) in AllowedExtensions
  }

  /** The extension is what follows the last dot, whatever the base name
      holds (dots included). */
  lemma {:induction false} AfterLastDotOfJoin(base: string, ext: string)
    requires '.' !in ext
    ensures AfterLastDot(base + "." + ext) == Some(ext)
    decreases |ext|
  {
    var s := base + "." + ext;
    if ext == [] {
      assert s[|s| - 1] == '.';
    } else {
      var n := |ext| - 1;
      assert s[..|s| - 1] == base + "." + ext[..n];
      assert '.' !in ext[..n] by {
        forall i | 0 <= i < n ensures ext[..n][i] != '.' {
          assert ext[..n][i] == ext[i];
        }
      }
      AfterLastDotOfJoin(base, ext[..n]);
      assert ext[..n] + [ext[n]] == ext;
    }
  }

  /** A file is accepted exactly when its last extension, in lower case, is
      one of jpg, jpeg, png and webp; a name without a dot never is. */
  lemma AllowedFileIff(base: string, ext: string, plain: string)
    requires '.' !in ext && '.' !in plain
    ensures AllowedFile(base + "." + ext) <==> Lower(ext) in AllowedExtensions
    ensures !AllowedFile(plain)
  {
    AfterLastDotOfJoin(base, ext);
    NoDotNoExtension(plain);
  }

  lemma {:induction false} NoDotNoExtension(s: string)
    requires '.' !in s
    ensures AfterLastDot(s) == None
    decreases |s|
  {
    if s != [] {
      var n := |s| - 1;
      assert '.' !in s[..n] by {
        forall i | 0 <= i < n ensures s[..n][i] != '.' {
          assert s[..n][i] == s[i];
        }
      }
      NoDotNoExtension(s[..n]);
    }
  }
}
