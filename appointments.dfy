/** appointment_service.py: the `appointments` table with its validation on
    insert, its status updates, and the queries the booking and reminder
    code run against it. Instants are minutes since the epoch (the stored
    datetime has minute precision, so comparing it with the clock cut to
    the minute gives the same answers); a row's `id` stands for the UUID
    the database draws. */
module Appointments {
  import opened Wrappers

  datatype Status = Active | Cancelled | Completed

  datatype Appointment = Appointment(id: nat, customerId: string, service: string, serviceHe: string,
                                     at: int, duration: int, status: Status, eventId: Option<string>,
                                     notes: string, updatedAt: int)

  /** How far ahead an appointment may be booked: 30 days. */
  const MaxAdvance := 30 * 1440

  /** `create_appointment`'s two checks: strictly in the future, and at
      most 30 days ahead. */
  predicate Bookable(at: int, now: int) {
    now < at <= now + MaxAdvance
  }

  // ---------------------------------------------------------------------
  // Ordering (`ORDER BY datetime ASC`)
  // ---------------------------------------------------------------------

  predicate SortedByTime(s: seq<Appointment>) {
    forall i, j :: 0 <= i < j < |s| ==> s[i].at <= s[j].at
  }

  function Insert(x: Appointment, s: seq<Appointment>): seq<Appointment>
    decreases |s|
  {
    if s == [] then [x]
    else if x.at <= s[0].at then [x] + s
    else [s[0]] + Insert(x, s[1..])
  }

  function SortByTime(s: seq<Appointment>): seq<Appointment>
    decreases |s|
  {
    if s == [] then [] else Insert(s[0], SortByTime(s[1..]))
  }

  lemma {:induction false} InsertMultiset(x: Appointment, s: seq<Appointment>)
    ensures multiset(Insert(x, s)) == multiset(s) + multiset{x}
    decreases |s|
  {
    if s != [] && x.at > s[0].at {
      InsertMultiset(x, s[1..]);
      assert s == [s[0]] + s[1..];
    }
  }

  /** Inserting keeps a lower bound on the datetimes. */
  lemma {:induction false} InsertLowerBound(x: Appointment, s: seq<Appointment>, lo: int)
    requires lo <= x.at && forall k :: 0 <= k < |s| ==> lo <= s[k].at
    ensures forall k :: 0 <= k < |Insert(x, s)| ==> lo <= Insert(x, s)[k].at
    decreases |s|
  {
    if s != [] && x.at > s[0].at {
      InsertLowerBound(x, s[1..], lo);
    }
  }

  lemma {:induction false} InsertSorted(x: Appointment, s: seq<Appointment>)
    requires SortedByTime(s)
    ensures SortedByTime(Insert(x, s))
    decreases |s|
  {
    if s != [] && x.at > s[0].at {
      var rest := Insert(x, s[1..]);
      InsertSorted(x, s[1..]);
      InsertLowerBound(x, s[1..], s[0].at);
      var r := [s[0]] + rest;
      assert r == Insert(x, s);
      forall i, j | 0 <= i < j < |r| ensures r[i].at <= r[j].at {
        assert r[j] == rest[j - 1];
        if i > 0 {
          assert r[i] == rest[i - 1];
        }
      }
    }
  }

  /** The ordered query result is a permutation of its rows in ascending
      datetime order. */
  lemma SortByTimeSpec(s: seq<Appointment>)
    ensures SortedByTime(SortByTime(s))
    ensures multiset(SortByTime(s)) == multiset(s)
  {
    SortByTimeSorted(s);
    SortByTimePermutes(s);
  }

  lemma {:induction false} SortByTimeSorted(s: seq<Appointment>)
    ensures SortedByTime(SortByTime(s))
    decreases |s|
  {
    if s != [] {
      var t := SortByTime(s[1..]);
      assert SortByTime(s) == Insert(s[0], t);
      SortByTimeSorted(s[1..]);
      InsertSorted(s[0], t);
    }
  }

  lemma {:induction false} SortByTimePermutes(s: seq<Appointment>)
    ensures multiset(SortByTime(s)) == multiset(s)
    decreases |s|
  {
    if s != [] {
      var t := SortByTime(s[1..]);
      assert SortByTime(s) == Insert(s[0], t);
      SortByTimePermutes(s[1..]);
      InsertMultiset(s[0], t);
      assert s == [s[0]] + s[1..];
      assert multiset(s) == multiset{s[0]} + multiset(s[1..]);
    }
  }


  // ---------------------------------------------------------------------
  // Queries
  // ---------------------------------------------------------------------

  /** The `WHERE` clauses of the queries. */
  datatype Query = FutureOf(customer: string, now: int) | ActiveOn(day: int)

  predicate Selects(q: Query, a: Appointment) {
    match q
    case FutureOf(customer, now) => a.customerId == customer && a.status == Active && a.at > now
    case ActiveOn(day) => a.status == Active && day * 1440 <= a.at < (day + 1) * 1440
  }

  function Select(rows: seq<Appointment>, q: Query): seq<Appointment>
    decreases |rows|
  {
    if rows == [] then []
    else
      var n := |rows| - 1;
      Select(rows[..n], q) + (if Selects(q, rows[n]) then [rows[n]] else [])
  }

  /** The selected rows are exactly the matching ones, each as often as in
      the table. */
  lemma {:induction false} SelectCounts(rows: seq<Appointment>, q: Query)
    ensures forall a :: multiset(Select(rows, q))[a] == if Selects(q, a) then multiset(rows)[a] else 0
    decreases |rows|
  {
    if rows != [] {
      var n := |rows| - 1;
      SelectCounts(rows[..n], q);
      assert rows == rows[..n] + [rows[n]];
    }
  }

  /** A query: the matching rows, ordered by datetime. */
  function Run(rows: seq<Appointment>, q: Query): (r: seq<Appointment>)
    ensures SortedByTime(r)
    ensures forall a :: multiset(r)[a] == if Selects(q, a) then multiset(rows)[a] else 0
  {
    SelectCounts(rows, q);
    SortByTimeSpec(Select(rows, q));
    SortByTime(Select(rows, q))
  }

  /** `get_customer_future_appointments`: the customer's active
      appointments after `now`, soonest first. */
  function CustomerFutureAppointments(rows: seq<Appointment>, customer: string, now: int): (r: seq<Appointment>)
    ensures SortedByTime(r)
    ensures forall a :: a in r <==> a in rows && a.customerId == customer && a.status == Active && a.at > now
  {
    var r := Run(rows, FutureOf(customer, now));
    assert forall a :: a in r <==> multiset(r)[a] > 0;
    r
  }

  /** `has_active_future_appointment`: the earliest of those, if any. */
  function ActiveFutureAppointment(rows: seq<Appointment>, customer: string, now: int): (r: Option<Appointment>)
    ensures r.None? <==> forall a :: a in rows ==> !Selects(FutureOf(customer, now), a)
    ensures r.Some? ==> r.value in rows && Selects(FutureOf(customer, now), r.value)
                        && forall a :: a in rows && Selects(FutureOf(customer, now), a) ==> r.value.at <= a.at
  {
    var future := CustomerFutureAppointments(rows, customer, now);
    if future == [] then None
    else
      assert forall a :: a in future ==> future[0].at <= a.at by {
        forall a | a in future ensures future[0].at <= a.at {
          var k :| 0 <= k < |future| && future[k] == a;
          if k > 0 {
            assert future[0].at <= future[k].at;
          }
        }
      }
      Some(future[0])
  }

  /** `get_appointments_for_date`: the active appointments of the day
      `[D 00:00, D+1 00:00)`, in order; an unparsable date gives none. */
  function AppointmentsForDate(rows: seq<Appointment>, day: Option<int>): (r: seq<Appointment>)
    ensures SortedByTime(r)
    ensures day.None? ==> r == []
    ensures day.Some? ==> forall a :: a in r <==> a in rows && a.status == Active
                                                   && day.value * 1440 <= a.at < (day.value + 1) * 1440
  {
    if day.None? then []
    else
      var r := Run(rows, ActiveOn(day.value));
      assert forall a :: a in r <==> multiset(r)[a] > 0;
      r
  }

  datatype ReminderLists = ReminderLists(dayBefore: seq<Appointment>, morning: seq<Appointment>)

  /** `get_appointments_needing_reminders`: tomorrow's active appointments
      for the evening reminder and today's for the morning one. */
  function AppointmentsNeedingReminders(rows: seq<Appointment>, today: int): (r: ReminderLists)
    ensures SortedByTime(r.dayBefore) && SortedByTime(r.morning)
    ensures forall a :: a in r.dayBefore <==> a in rows && a.status == Active
                                              && (today + 1) * 1440 <= a.at < (today + 2) * 1440
    ensures forall a :: a in r.morning <==> a in rows && a.status == Active
                                            && today * 1440 <= a.at < (today + 1) * 1440
  {
    ReminderLists(AppointmentsForDate(rows, Some(today + 1)), AppointmentsForDate(rows, Some(today)))
  }

  /** Tomorrow's list and today's list never share an appointment. */
  lemma ReminderListsDisjoint(rows: seq<Appointment>, today: int)
    ensures var r := AppointmentsNeedingReminders(rows, today);
            forall a :: a in r.dayBefore ==> a !in r.morning
  {
  }

  // ---------------------------------------------------------------------
  // Updates
  // ---------------------------------------------------------------------

  /** The row with the given id, if any. */
  function FindById(rows: seq<Appointment>, id: nat): (r: Option<Appointment>)
    ensures r.Some? ==> r.value in rows && r.value.id == id
    ensures r.None? <==> forall k :: 0 <= k < |rows| ==> rows[k].id != id
    decreases |rows|
  {
    if rows == [] then None
    else if rows[0].id == id then Some(rows[0])
    else
      var r := FindById(rows[1..], id);
      assert r.None? ==> forall k :: 0 <= k < |rows| ==> rows[k].id != id by {
        if r.None? {
          forall k | 0 <= k < |rows| ensures rows[k].id != id {
            if k > 0 { assert rows[k] == rows[1..][k - 1]; }
          }
        }
      }
      assert r.Some? ==> r.value in rows by {
        if r.Some? { assert r.value in rows[1..]; }
      }
      r
  }

  /** `UPDATE ... SET status = s, updated_at = NOW() WHERE id = ...`. */
  function WithStatus(rows: seq<Appointment>, id: nat, s: Status, now: int): seq<Appointment> {
    seq(|rows|, k requires 0 <= k < |rows| =>
      if rows[k].id == id then rows[k].(status := s, updatedAt := now) else rows[k])
  }

  /** `UPDATE appointments SET google_event_id = ... WHERE id = ...`. */
  function WithEventId(rows: seq<Appointment>, id: nat, eventId: Option<string>): seq<Appointment> {
    seq(|rows|, k requires 0 <= k < |rows| =>
      if rows[k].id == id then rows[k].(eventId := eventId) else rows[k])
  }

  /** A status update whatever the previous status: the row keeps every
      other field, and no other row changes. */
  lemma WithStatusChangesOnlyStatus(rows: seq<Appointment>, id: nat, s: Status, now: int, k: int)
    requires 0 <= k < |rows|
    ensures var r := WithStatus(rows, id, s, now)[k];
            r.id == rows[k].id && r.customerId == rows[k].customerId && r.at == rows[k].at
            && r.service == rows[k].service && r.serviceHe == rows[k].serviceHe
            && r.duration == rows[k].duration && r.eventId == rows[k].eventId && r.notes == rows[k].notes
            && (rows[k].id == id ==> r.status == s && r.updatedAt == now)
            && (rows[k].id != id ==> r == rows[k])
  {
  }

  /** The updated table still has unique ids below the counter. */
  lemma WithStatusKeepsIds(rows: seq<Appointment>, nextId: nat, id: nat, s: Status, now: int)
    requires IdsValid(rows, nextId)
    ensures IdsValid(WithStatus(rows, id, s, now), nextId)
  {
    var w := WithStatus(rows, id, s, now);
    assert forall k :: 0 <= k < |w| ==> w[k].id == rows[k].id;
  }

  /** The row with the id is found after the update exactly when it was
      found before, and then carries the new status and time. */
  lemma WithStatusFound(rows: seq<Appointment>, id: nat, s: Status, now: int)
    ensures var r := FindById(WithStatus(rows, id, s, now), id);
            (r.None? <==> FindById(rows, id).None?)
            && (r.Some? ==> r.value.status == s && r.value.updatedAt == now)
  {
    var w := WithStatus(rows, id, s, now);
    var r := FindById(w, id);
    if r.None? {
      forall k | 0 <= k < |rows| ensures rows[k].id != id {
        assert w[k].id == rows[k].id;
      }
    } else {
      var k :| 0 <= k < |w| && w[k] == r.value;
    }
  }

  /** Once cancelled or completed, an appointment leaves every query. */
  lemma {:induction false} ClosedAppointmentLeavesQueries(rows: seq<Appointment>, id: nat, s: Status, now: int,
                                                          q: Query, a: Appointment)
    requires s != Active
    requires a in Run(WithStatus(rows, id, s, now), q)
    ensures a.id != id
  {
    var updated := WithStatus(rows, id, s, now);
    assert multiset(Run(updated, q))[a] > 0;
    assert a in updated && Selects(q, a);
    var k :| 0 <= k < |updated| && updated[k] == a;
  }

  /** Ids are distinct and below the next one to hand out. */
  ghost predicate IdsValid(rows: seq<Appointment>, nextId: nat) {
    (forall k :: 0 <= k < |rows| ==> rows[k].id < nextId)
    && (forall i, j :: 0 <= i < j < |rows| ==> rows[i].id != rows[j].id)
  }

  /** The appointments table. */
  class AppointmentTable {
    var rows: seq<Appointment>
    var nextId: nat

    ghost predicate Valid()
      reads this
    {
      IdsValid(rows, nextId)
    }

    constructor()
      ensures Valid() && rows == []
    {
      rows := [];
      nextId := 0;
    }

    /** `create_appointment`: a datetime that does not parse, is not in
        the future, or is more than 30 days ahead inserts nothing;
        otherwise one active row is added and returned. */
    method Create(customerId: string, service: string, serviceHe: string, at: Option<int>, duration: int,
                  notes: string, eventId: Option<string>, now: int) returns (r: Option<Appointment>)
      requires Valid()
      modifies this
      ensures Valid()
      ensures at.None? || !Bookable(at.value, now) ==> r.None? && rows == old(rows)
      ensures at.Some? && Bookable(at.value, now) ==>
                r == Some(Appointment(old(nextId), customerId, service, serviceHe, at.value, duration,
                                      Active, eventId, notes, now))
                && rows == old(rows) + [r.value]
    {
      if at.None? {
        return None;
      }
      if at.value <= now {
        return None;
      }
      if at.value > now + MaxAdvance {
        return None;
      }
      var a := Appointment(nextId, customerId, service, serviceHe, at.value, duration,
                           Active, eventId, notes, now);
      rows := rows + [a];
      nextId := nextId + 1;
      r := Some(a);
    }

    /** `cancel_appointment` and `complete_appointment`: the status is set
        with no check of the previous one; the updated row is returned, or
        `None` when no row has the id. */
    method SetStatus(id: nat, s: Status, now: int) returns (r: Option<Appointment>)
      requires Valid()
      modifies this
      ensures Valid()
      ensures rows == WithStatus(old(rows), id, s, now)
      ensures r == FindById(rows, id)
      ensures r.None? <==> FindById(old(rows), id).None?
      ensures r.Some? ==> r.value.status == s && r.value.updatedAt == now
    {
      WithStatusKeepsIds(rows, nextId, id, s, now);
      WithStatusFound(rows, id, s, now);
      rows := WithStatus(rows, id, s, now);
      r := FindById(rows, id);
    }

    method Cancel(id: nat, now: int) returns (r: Option<Appointment>)
      requires Valid()
      modifies this
      ensures Valid()
      ensures rows == WithStatus(old(rows), id, Cancelled, now)
      ensures r == FindById(rows, id)
    {
      r := SetStatus(id, Cancelled, now);
    }

    method Complete(id: nat, now: int) returns (r: Option<Appointment>)
      requires Valid()
      modifies this
      ensures Valid()
      ensures rows == WithStatus(old(rows), id, Completed, now)
      ensures r == FindById(rows, id)
    {
      r := SetStatus(id, Completed, now);
    }

    /** `update_google_event_id`: sets that one field, and answers true
        whether or not a row matched. */
    method UpdateEventId(id: nat, eventId: Option<string>) returns (ok: bool)
      requires Valid()
      modifies this
      ensures Valid() && ok
      ensures rows == WithEventId(old(rows), id, eventId)
    {
      rows := WithEventId(rows, id, eventId);
      ok := true;
    }
  }
}
