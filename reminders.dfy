/** reminder_service.py: reading a booking back out of a calendar event
    (`parse_appointment_details`), choosing the events of one day
    (`send_day_before_reminders`, `send_morning_reminders`), and the guards
    of `send_email_reminder`. The calendar query is an input: the events it
    returned, or `None` when it raised (`get_upcoming_appointments` then
    yields no events). Instants are minutes since the epoch. */
module Reminders {
  import opened Wrappers
  import opened Seqs
  import opened Text
  import opened Calendar

  /** An event's start: a date-time (its text holds a `T`) or a bare date. */
  datatype EventStart = DateTimeStart(at: int) | DateOnly(day: int)

  /** The fields of a calendar event the reminder code reads. */
  datatype CalendarItem = CalendarItem(id: string, summary: string, description: string, start: EventStart)

  /** The details dictionary; `datetime` is set only for a date-time start. */
  datatype Details = Details(name: string, phone: string, email: string, service: string,
                             summary: string, datetime: Option<int>)

  /** The `i`-th non-blank line, or `""` when there are fewer lines. */
  function LineAt(lines: seq<string>, i: nat): string {
    if i < |lines| then lines[i] else ""
  }

  /** `parse_appointment_details`: service, name and phone are the first
      three non-blank lines; the fourth is the email only if it holds `@`. */
  function ParseAppointmentDetails(item: CalendarItem): Details {
    var lines := NonBlankLines(item.description);
    var fourth := LineAt(lines, 3);
    Details(LineAt(lines, 1), LineAt(lines, 2), if '@' in fourth then fourth else "",
            LineAt(lines, 0), item.summary,
            if item.start.DateTimeStart? then Some(item.start.at) else None)
  }

  lemma ParsedStart(item: CalendarItem)
    ensures ParseAppointmentDetails(item).datetime
            == if item.start.DateTimeStart? then Some(item.start.at) else None
  {
  }

  /** A field that `create_event` writes as one line of its own. */
  predicate OneLine(s: string) {
    s != [] && '\n' !in s && Strip(s) == s
  }

  lemma FirstFour<T>(a: T, b: T, c: T, d: T, rest: seq<T>)
    ensures var s := [a] + [b] + [c] + [d] + rest;
            |s| >= 4 && s[0] == a && s[1] == b && s[2] == c && s[3] == d
  {
  }

  /** The non-blank lines of a description written for one-line fields. */
  lemma DescriptionLinesOfFields(heading: string, name: string, phone: string, email: string, notes: string)
    requires OneLine(heading) && OneLine(name) && OneLine(phone) && OneLine(email)
    ensures NonBlankLines(Description(heading, name, phone, email, notes))
            == [heading] + [name] + [phone] + [email] + (if notes != [] then LinesOf(notes) else [])
  {
    DescriptionLines(heading, name, phone, email, notes);
    CleanSingleLine(heading);
    CleanSingleLine(name);
    CleanSingleLine(phone);
    CleanSingleLine(email);
  }

  /** Round trip: reading back the description `create_event` writes
      recovers service heading, name and phone, and the email when it holds
      `@` (`""` otherwise), whatever the notes. */
  lemma ParseRecoversBooking(heading: string, name: string, phone: string, email: string, notes: string,
                             id: string, summary: string, start: EventStart)
    requires OneLine(heading) && OneLine(name) && OneLine(phone) && OneLine(email)
    ensures var d := ParseAppointmentDetails(
              CalendarItem(id, summary, Description(heading, name, phone, email, notes), start));
            d.service == heading && d.name == name && d.phone == phone
            && d.email == (if '@' in email then email else "")
            && d.summary == summary
            && (d.datetime.Some? <==> start.DateTimeStart?)
  {
    var rest := if notes != [] then LinesOf(notes) else [];
    DescriptionLinesOfFields(heading, name, phone, email, notes);
    FirstFour(heading, name, phone, email, rest);
  }

  /** The day `[day 00:00, day+1 00:00)` in minutes since the epoch. */
  predicate OnDay(at: int, day: int) {
    day * 1440 <= at < (day + 1) * 1440
  }

  /** An event whose start is a date-time on `day`. */
  predicate StartsOn(item: CalendarItem, day: int) {
    item.start.DateTimeStart? && OnDay(item.start.at, day)
  }

  /** The check the senders make on the parsed details. */
  predicate DueOn(d: Details, day: int) {
    d.datetime.Some? && OnDay(d.datetime.value, day)
  }

  /** The parsed details are due on a day exactly when the event starts on it. */
  lemma ParsedOnDay(item: CalendarItem, day: int)
    ensures DueOn(ParseAppointmentDetails(item), day) <==> StartsOn(item, day)
  {
    ParsedStart(item);
  }

  /** The events parsed one by one, in order. */
  function ParseAll(items: seq<CalendarItem>): (ds: seq<Details>)
    ensures |ds| == |items|
  {
    seq(|items|, k requires 0 <= k < |items| => ParseAppointmentDetails(items[k]))
  }

  /** The parsed details due on `day`, in event order. */
  function DayTargets(ds: seq<Details>, day: int): seq<Details>
    decreases |ds|
  {
    if ds == [] then []
    else
      var n := |ds| - 1;
      DayTargets(ds[..n], day) + (if DueOn(ds[n], day) then [ds[n]] else [])
  }

  lemma DayTargetsStep(ds: seq<Details>, day: int, i: int)
    requires 0 <= i < |ds|
    ensures DayTargets(ds[..i + 1], day)
            == DayTargets(ds[..i], day) + (if DueOn(ds[i], day) then [ds[i]] else [])
  {
    assert ds[..i + 1][..i] == ds[..i];
  }

  /** Every reminded entry is due on the day. */
  lemma {:induction false} DayTargetsOnDay(ds: seq<Details>, day: int)
    ensures forall d :: d in DayTargets(ds, day) ==> DueOn(d, day)
    decreases |ds|
  {
    if ds != [] {
      var n := |ds| - 1;
      var init := DayTargets(ds[..n], day);
      var tail := if DueOn(ds[n], day) then [ds[n]] else [];
      DayTargetsOnDay(ds[..n], day);
      assert DayTargets(ds, day) == init + tail;
      forall x: Details | x in init + tail ensures DueOn(x, day) {
        InAppend(x, init, tail);
      }
    }
  }

  /** Every entry due on the day is reminded. */
  lemma {:induction false} DayTargetsComplete(ds: seq<Details>, day: int, i: int)
    requires 0 <= i < |ds| && DueOn(ds[i], day)
    ensures ds[i] in DayTargets(ds, day)
    decreases |ds|
  {
    var n := |ds| - 1;
    var init := DayTargets(ds[..n], day);
    var tail := if DueOn(ds[n], day) then [ds[n]] else [];
    assert DayTargets(ds, day) == init + tail;
    if i < n {
      assert ds[..n][i] == ds[i];
      DayTargetsComplete(ds[..n], day, i);
    } else {
      assert tail == [ds[i]];
    }
    InAppend(ds[i], init, tail);
  }

  /** Reminders keep the order of the events and drop none but the
      ones not due. */
  lemma {:induction false} DayTargetsSubsequence(ds: seq<Details>, day: int)
    ensures IsSubsequence(DayTargets(ds, day), ds)
    decreases |ds|
  {
    if ds == [] {
      SubsequenceEmpty<Details>([]);
    } else {
      var n := |ds| - 1;
      DayTargetsSubsequence(ds[..n], day);
      SubsequenceSnoc(DayTargets(ds[..n], day), ds[..n], ds[n]);
      assert ds[..n] + [ds[n]] == ds;
      if !DueOn(ds[n], day) {
        AppendNil(DayTargets(ds[..n], day));
      }
    }
  }

  /** Every event with a date-time start on the day gets a reminder, and
      only those: what the senders request for a list of events. */
  lemma RemindedIffStartsOn(items: seq<CalendarItem>, day: int, i: int)
    requires 0 <= i < |items|
    ensures StartsOn(items[i], day) ==> ParseAppointmentDetails(items[i]) in DayTargets(ParseAll(items), day)
    ensures forall d :: d in DayTargets(ParseAll(items), day) ==> d.datetime.Some? && OnDay(d.datetime.value, day)
  {
    var ds := ParseAll(items);
    ParsedOnDay(items[i], day);
    if StartsOn(items[i], day) {
      DayTargetsComplete(ds, day, i);
    }
    DayTargetsOnDay(ds, day);
  }

  /** The loop shared by the two senders: parse each event and remind the
      ones due on `day`; the output lists the reminders requested, in order. */
  method RemindEventsOn(lookup: Option<seq<CalendarItem>>, day: int) returns (reminded: seq<Details>)
    ensures lookup.None? ==> reminded == []
    ensures lookup.Some? ==> reminded == DayTargets(ParseAll(lookup.value), day)
  {
    reminded := [];
    if lookup.None? {
      return;
    }
    var items := lookup.value;
    ghost var ds := ParseAll(items);
    for i := 0 to |items|
      invariant reminded == DayTargets(ds[..i], day)
    {
      var details := ParseAppointmentDetails(items[i]);
      var due := false;
      if details.datetime.Some? {
        var at := details.datetime.value;
        due := day * 1440 <= at < (day + 1) * 1440;
      }
      assert due == DueOn(ds[i], day) && details == ds[i];
      DayTargetsStep(ds, day, i);
      if due {
        reminded := reminded + [details];
      }
    }
    assert ds[..|items|] == ds;
  }

  /** `send_day_before_reminders`: the events of tomorrow. */
  method SendDayBeforeReminders(lookup: Option<seq<CalendarItem>>, today: int) returns (reminded: seq<Details>)
    ensures forall d :: d in reminded ==> DueOn(d, today + 1)
    ensures lookup.None? ==> reminded == []
    ensures lookup.Some? ==> reminded == DayTargets(ParseAll(lookup.value), today + 1)
  {
    reminded := RemindEventsOn(lookup, today + 1);
    if lookup.Some? {
      DayTargetsOnDay(ParseAll(lookup.value), today + 1);
    }
  }

  /** `send_morning_reminders`: the events of today. */
  method SendMorningReminders(lookup: Option<seq<CalendarItem>>, today: int) returns (reminded: seq<Details>)
    ensures forall d :: d in reminded ==> DueOn(d, today)
    ensures lookup.None? ==> reminded == []
    ensures lookup.Some? ==> reminded == DayTargets(ParseAll(lookup.value), today)
  {
    reminded := RemindEventsOn(lookup, today);
    if lookup.Some? {
      DayTargetsOnDay(ParseAll(lookup.value), today);
    }
  }

  /** The configuration `send_email_reminder` reads. */
  datatype EmailConfig = EmailConfig(enabled: bool, address: string, password: string)

  /** `send_email_reminder`: nothing is sent when email is disabled, when a
      credential is missing or when there is no recipient; otherwise the
      answer is whether the SMTP delivery went through. */
  function SendEmailReminder(config: EmailConfig, toEmail: string, delivered: bool): (sent: bool)
    ensures sent ==> config.enabled && config.address != [] && config.password != [] && toEmail != []
    ensures config.enabled && config.address != [] && config.password != [] && toEmail != [] ==> sent == delivered
  {
    if !config.enabled then false
    else if config.address == [] || config.password == [] then false
    else if toEmail == [] then false
    else delivered
  }
}
