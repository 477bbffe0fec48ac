/** The calendar side of booking (calendar_service.py): busy intervals read
    from the day's events, the overlap test, `check_availability`,
    `filter_available_slots`, the event written by `create_event` and the
    404 rule of `cancel_event`. The Google Calendar API itself is an input:
    the day's events, or `None` when the lookup raises. Times of day are
    minutes since midnight. */
module Calendar {
  import opened Wrappers
  import opened Seqs
  import opened Text

  /** A busy interval `[start, end)` of one day. */
  datatype Busy = Busy(start: int, end: int)

  /** What `get_busy_slots` sees of an event: a timed event (its start text
      holds a `T`) with the times of day of its start and end, or an all-day
      event. */
  datatype CalEvent = Timed(start: int, end: int) | AllDay

  function BusyOf(e: CalEvent): seq<Busy> {
    match e
    case Timed(s, t) => [Busy(s, t)]
    case AllDay => []
  }

  /** The intervals `get_busy_slots` collects, in event order. */
  function BusySlots(events: seq<CalEvent>): seq<Busy>
    decreases |events|
  {
    if events == [] then []
    else BusySlots(events[..|events| - 1]) + BusyOf(events[|events| - 1])
  }

  /** `get_busy_slots`: one interval per timed event, none for an all-day one. */
  method GetBusySlots(events: seq<CalEvent>) returns (busy: seq<Busy>)
    ensures busy == BusySlots(events)
  {
    busy := [];
    for i := 0 to |events|
      invariant busy == BusySlots(events[..i])
    {
      assert events[..i + 1][..i] == events[..i];
      if events[i].Timed? {
        busy := busy + [Busy(events[i].start, events[i].end)];
      }
    }
    assert events[..|events|] == events;
  }

  /** Every busy interval comes from a timed event with the same times, and
      every timed event yields one: all-day events are skipped. */
  lemma {:induction false} BusySlotsFromTimedEvents(events: seq<CalEvent>)
    ensures forall b :: b in BusySlots(events) <==> Timed(b.start, b.end) in events
    decreases |events|
  {
    if events != [] {
      var n := |events| - 1;
      var init := events[..n];
      BusySlotsFromTimedEvents(init);
      assert events == init + [events[n]];
      forall b
        ensures b in BusySlots(events) <==> Timed(b.start, b.end) in events
      {
        assert Timed(b.start, b.end) in events <==>
          Timed(b.start, b.end) in init || Timed(b.start, b.end) == events[n];
      }
    }
  }

  /** The test of both loops: `not (end <= busy_start or start >= busy_end)`. */
  predicate Overlaps(start: int, end: int, b: Busy) {
    !(end <= b.start || start >= b.end)
  }

  predicate InSpan(m: int, lo: int, hi: int) {
    lo <= m < hi
  }

  /** For non-empty half-open intervals the test means sharing a minute, so
      an appointment that only touches a busy interval's edge is allowed. */
  lemma OverlapsIffSharedMinute(start: int, end: int, b: Busy)
    requires start < end && b.start < b.end
    ensures Overlaps(start, end, b) <==> exists m :: InSpan(m, start, end) && InSpan(m, b.start, b.end)
  {
    if Overlaps(start, end, b) {
      var m := if start < b.start then b.start else start;
      assert InSpan(m, start, end) && InSpan(m, b.start, b.end);
    }
  }

  /** A slot starting at `t` for `d` minutes meets no busy interval. */
  predicate SlotFree(t: int, d: int, busy: seq<Busy>) {
    forall i :: 0 <= i < |busy| ==> !Overlaps(t, t + d, busy[i])
  }

  /** The slots `filter_available_slots` keeps, in their original order. */
  function FreeSlots(slots: seq<int>, d: int, busy: seq<Busy>): (r: seq<int>)
    ensures |r| <= |slots|
    ensures forall k :: 0 <= k < |r| ==> SlotFree(r[k], d, busy)
    decreases |slots|
  {
    if slots == [] then []
    else
      var n := |slots| - 1;
      FreeSlots(slots[..n], d, busy) + (if SlotFree(slots[n], d, busy) then [slots[n]] else [])
  }

  /** `check_availability` for one slot, with the busy lookup as input; the
      lookup raising (`None`) makes the check raise (`None`). */
  method CheckAvailability(lookup: Option<seq<CalEvent>>, t: int, d: int) returns (r: Option<bool>)
    ensures lookup.None? ==> r.None?
    ensures lookup.Some? ==> r == Some(SlotFree(t, d, BusySlots(lookup.value)))
  {
    if lookup.None? {
      return None;
    }
    var busy := GetBusySlots(lookup.value);
    var i := 0;
    while i < |busy|
      invariant 0 <= i <= |busy|
      invariant forall k :: 0 <= k < i ==> !Overlaps(t, t + d, busy[k])
    {
      if !(t + d <= busy[i].start || t >= busy[i].end) {
        return Some(false);
      }
      i := i + 1;
    }
    return Some(true);
  }

  /** `filter_available_slots`: a nested loop with an `is_available` flag and
      a `break`; when the busy lookup raises, every slot is returned. */
  method FilterAvailableSlots(lookup: Option<seq<CalEvent>>, allSlots: seq<int>, d: int)
    returns (available: seq<int>)
    ensures lookup.None? ==> available == allSlots
    ensures lookup.Some? ==> available == FreeSlots(allSlots, d, BusySlots(lookup.value))
  {
    if lookup.None? {
      return allSlots;
    }
    var busy := GetBusySlots(lookup.value);
    available := [];
    for i := 0 to |allSlots|
      invariant available == FreeSlots(allSlots[..i], d, busy)
    {
      var slot := allSlots[i];
      var isAvailable := true;
      var j := 0;
      while j < |busy|
        invariant 0 <= j <= |busy|
        invariant isAvailable && forall k :: 0 <= k < j ==> !Overlaps(slot, slot + d, busy[k])
      {
        if !(slot + d <= busy[j].start || slot >= busy[j].end) {
          isAvailable := false;
          break;
        }
        j := j + 1;
      }
      assert isAvailable == SlotFree(slot, d, busy);
      ghost var prefix := allSlots[..i + 1];
      assert prefix[..i] == allSlots[..i] && prefix[i] == slot;
      assert FreeSlots(prefix, d, busy) == available + (if isAvailable then [slot] else []);
      if isAvailable {
        available := available + [slot];
      }
    }
    assert allSlots[..|allSlots|] == allSlots;
  }

  /** A slot survives the filter exactly when it is one of the candidates and
      `check_availability` would say it is free. */
  lemma {:induction false} FreeSlotsMember(slots: seq<int>, d: int, busy: seq<Busy>, t: int)
    ensures t in FreeSlots(slots, d, busy) <==> t in slots && SlotFree(t, d, busy)
    decreases |slots|
  {
    if slots != [] {
      var n := |slots| - 1;
      FreeSlotsMember(slots[..n], d, busy, t);
      assert slots == slots[..n] + [slots[n]];
    }
  }

  /** The filter keeps an order-preserving subsequence of its input. */
  lemma {:induction false} FreeSlotsSubsequence(slots: seq<int>, d: int, busy: seq<Busy>)
    ensures IsSubsequence(FreeSlots(slots, d, busy), slots)
    decreases |slots|
  {
    if slots == [] {
      SubsequenceEmpty(slots);
    } else {
      var n := |slots| - 1;
      var f := FreeSlots(slots[..n], d, busy);
      FreeSlotsSubsequence(slots[..n], d, busy);
      SubsequenceSnoc(f, slots[..n], slots[n]);
      assert slots == slots[..n] + [slots[n]];
      assert FreeSlots(slots, d, busy) == f + (if SlotFree(slots[n], d, busy) then [slots[n]] else []);
      if !SlotFree(slots[n], d, busy) {
        assert f + [] == f;
      }
    }
  }

  /** Filtering a filtered list again with the same busy list and duration
      changes nothing. */
  lemma {:induction false} FreeSlotsIdempotent(slots: seq<int>, d: int, busy: seq<Busy>)
    ensures FreeSlots(FreeSlots(slots, d, busy), d, busy) == FreeSlots(slots, d, busy)
    decreases |slots|
  {
    if slots != [] {
      var n := |slots| - 1;
      var f := FreeSlots(slots[..n], d, busy);
      FreeSlotsIdempotent(slots[..n], d, busy);
      assert FreeSlots(slots, d, busy) == f + (if SlotFree(slots[n], d, busy) then [slots[n]] else []);
      if !SlotFree(slots[n], d, busy) {
        assert f + [] == f;
      } else {
        var g := f + [slots[n]];
        assert g[..|g| - 1] == f;
        assert FreeSlots(g, d, busy) == FreeSlots(f, d, busy) + [slots[n]];
      }
    }
  }

  /** With no busy interval, every slot is available. */
  lemma {:induction false} FreeSlotsNoBusy(slots: seq<int>, d: int)
    ensures FreeSlots(slots, d, []) == slots
    decreases |slots|
  {
    if slots != [] {
      var n := |slots| - 1;
      FreeSlotsNoBusy(slots[..n], d);
      assert slots == slots[..n] + [slots[n]];
    }
  }

  /** The heading `create_event` writes first: `service_he` when the booking
      carries one, the service name otherwise. */
  function ServiceLabel(service: string, serviceHe: Option<string>): string {
    if serviceHe.Some? then serviceHe.value else service
  }

  /** The description `create_event` writes: the four fields on lines of
      their own with a blank line after the heading, the whole stripped, then
      a blank line and the notes when the notes are not empty. */
  function Description(heading: string, name: string, phone: string, email: string, notes: string): string {
    Strip(RawDescription(heading, name, phone, email))
    + (if notes != [] then "\n\n" + notes else [])
  }

  /** The non-blank lines a text contributes. */
  function LinesOf(s: string): seq<string> {
    Clean(Split(s))
  }

  /** The text `create_event` strips: a newline, the heading, a blank
      line, then name, phone and email, each ended by a newline. */
  function RawDescription(heading: string, name: string, phone: string, email: string): string {
    "\n" + heading + "\n\n" + name + "\n" + phone + "\n" + email + "\n"
  }

  lemma RawDescriptionNested(heading: string, name: string, phone: string, email: string)
    ensures RawDescription(heading, name, phone, email)
            == "" + "\n" + (heading + "\n" + ("" + "\n" + (name + "\n" + (phone + "\n" + (email + "\n" + "")))))
  {
    var nl := "\n";
    assert "\n\n" == nl + nl;
  }

  lemma RawDescriptionLines(heading: string, name: string, phone: string, email: string)
    ensures LinesOf(RawDescription(heading, name, phone, email))
            == LinesOf(heading) + LinesOf(name) + LinesOf(phone) + LinesOf(email)
  {
    var r5 := email + "\n" + "";
    var r4 := phone + "\n" + r5;
    var r3 := name + "\n" + r4;
    var r2 := "" + "\n" + r3;
    var r1 := heading + "\n" + r2;
    var h, n, p, e := LinesOf(heading), LinesOf(name), LinesOf(phone), LinesOf(email);
    RawDescriptionNested(heading, name, phone, email);
    CleanEmpty();
    CleanSplitJoin(email, "");
    assert LinesOf(r5) == e;
    CleanSplitJoin(phone, r5);
    assert LinesOf(r4) == p + e;
    CleanSplitJoin(name, r4);
    assert LinesOf(r3) == n + (p + e);
    CleanSplitJoin("", r3);
    assert LinesOf(r2) == n + (p + e);
    CleanSplitJoin(heading, r2);
    assert LinesOf(r1) == h + (n + (p + e));
    CleanSplitJoin("", r1);
    assert LinesOf("" + "\n" + r1) == h + (n + (p + e));
    AppendAssoc(h, n, p, e);
  }

  /** The description's non-blank lines are those of the heading, name,
      phone and email, followed by those of the notes when there are notes. */
  lemma DescriptionLines(heading: string, name: string, phone: string, email: string, notes: string)
    ensures NonBlankLines(Description(heading, name, phone, email, notes))
            == LinesOf(heading) + LinesOf(name) + LinesOf(phone) + LinesOf(email)
               + (if notes != [] then LinesOf(notes) else [])
  {
    var raw := RawDescription(heading, name, phone, email);
    var body := LinesOf(heading) + LinesOf(name) + LinesOf(phone) + LinesOf(email);
    RawDescriptionLines(heading, name, phone, email);
    NonBlankLinesOfRaw(raw);
    assert LinesOf(Strip(raw)) == body;
    var desc := Description(heading, name, phone, email, notes);
    NonBlankLinesOfRaw(desc);
    assert NonBlankLines(desc) == LinesOf(desc);
    if notes == [] {
      DescriptionWithoutNotes(heading, name, phone, email);
      AppendNil(body);
    } else {
      var y := "" + "\n" + notes;
      NotesTail(Strip(raw), notes);
      CleanSplitJoin(Strip(raw), y);
      CleanSplitJoin("", notes);
      CleanEmpty();
      assert LinesOf(y) == LinesOf(notes);
      assert LinesOf(desc) == body + LinesOf(notes);
    }
  }

  lemma DescriptionWithoutNotes(heading: string, name: string, phone: string, email: string)
    ensures Description(heading, name, phone, email, []) == Strip(RawDescription(heading, name, phone, email))
  {
    var sr := Strip(RawDescription(heading, name, phone, email));
    assert sr + [] == sr;
  }

  lemma NotesTail(x: string, notes: string)
    ensures x + ("\n\n" + notes) == x + "\n" + ("" + "\n" + notes)
  {
    var nl := "\n";
    assert "\n\n" == nl + nl;
  }

  /** What `create_event` sends for a booking on `day` at minute `start`:
      absolute start and end in minutes since the epoch, summary and
      description. */
  datatype NewEvent = NewEvent(start: int, end: int, summary: string, description: string)

  function CreateEvent(day: int, start: int, duration: Option<int>, service: string,
                       serviceHe: Option<string>, name: string, phone: string,
                       email: string, notes: string): (r: NewEvent)
    ensures r.end - r.start == (if duration.Some? then duration.value else 60)
    ensures r.start == day * 1440 + start
  {
    var heading := ServiceLabel(service, serviceHe);
    var s := day * 1440 + start;
    NewEvent(s, s + (if duration.Some? then duration.value else 60),
             name + " - " + heading, Description(heading, name, phone, email, notes))
  }

  /** Once an event is created for a slot, `get_busy_slots` reports it and
      the same slot is no longer free for any positive duration, while the
      slot starting when the event ends stays free as far as that event goes. */
  lemma CreatedEventBlocksItsSlot(day: int, t: int, d: int, service: string, serviceHe: Option<string>,
                                  name: string, phone: string, email: string, notes: string,
                                  others: seq<CalEvent>, d2: int)
    requires 0 <= t && 0 < d && t + d < 1440 && 0 < d2
    ensures var e := CreateEvent(day, t, Some(d), service, serviceHe, name, phone, email, notes);
            var seen := Timed(e.start % 1440, e.end % 1440);
            !SlotFree(t, d2, BusySlots(others + [seen]))
            && !Overlaps(t + d, t + d + d2, Busy(e.start % 1440, e.end % 1440))
  {
    var e := CreateEvent(day, t, Some(d), service, serviceHe, name, phone, email, notes);
    assert e.start % 1440 == t && e.end % 1440 == t + d by {
      assert e.start == day * 1440 + t && e.end == day * 1440 + (t + d);
    }
    var events := others + [Timed(t, t + d)];
    assert events[..|events| - 1] == others;
    var busy := BusySlots(events);
    assert busy[|busy| - 1] == Busy(t, t + d);
  }

  /** The answer of the Calendar API to a delete. */
  datatype DeleteResponse = Deleted | HttpStatus(code: int) | Failure

  /** `cancel_event`: success when deleted, and also on HTTP 404 (already
      gone); any other HTTP error or exception is a failure. */
  function CancelEvent(response: DeleteResponse): bool {
    response.Deleted? || response == HttpStatus(404)
  }

  /** A healthy calendar deletes an event it holds and answers 404 for one
      it does not. */
  function DeleteOn(calendar: set<string>, id: string): (r: (DeleteResponse, set<string>))
    ensures id !in r.1 && r.1 <= calendar
  {
    if id in calendar then (Deleted, calendar - {id}) else (HttpStatus(404), calendar)
  }

  /** Cancelling is idempotent: on a healthy calendar it succeeds whether or
      not the event is still there, and a second cancel succeeds as well. */
  lemma CancelTwiceSucceeds(calendar: set<string>, id: string)
    ensures var first := DeleteOn(calendar, id);
            CancelEvent(first.0) && CancelEvent(DeleteOn(first.1, id).0)
            && first.1 == calendar - {id}
  {
  }
}
