/** app.py `check_and_send_reminders`: the hourly job that reads the target
    day's calendar events, turns them into reminder candidates, and sends
    each candidate at most once per reminder kind, guarded by claim rows in
    `reminder_sends` and a run lock.

    The clock `now` is seconds since the epoch in the studio's zone; the
    calendar query is an input (the events it returned, or `None` when it
    raised); whether the advisory lock was acquired is an input; a send
    raises for the event ids in `failures`, with that message. The claim
    table is a map from `(event id, kind)` to its row. */
module Dispatch {
  import opened Wrappers
  import opened Text
  import opened Calendar
  import opened Reminders

  datatype Kind = DayBefore | DayOf

  /** The hour of the day and the day number of an instant. */
  function HourOf(now: int): int {
    (now % 86400) / 3600
  }

  function DayNumber(now: int): int {
    now / 86400
  }

  /** The reminder kind and target day for the hour the job runs at: the
      job acts only at 20:00 (tomorrow's appointments) and 08:00 (today's). */
  function ReminderPlan(hour: int, today: int): (plan: Option<(Kind, int)>)
    ensures plan.Some? <==> hour == 8 || hour == 20
    ensures plan.Some? ==> (plan.value.0 == DayBefore <==> hour == 20)
    ensures plan.Some? ==> plan.value.1 == (if plan.value.0 == DayBefore then today + 1 else today)
  {
    if hour != 8 && hour != 20 then None
    else if hour == 20 then Some((DayBefore, today + 1))
    else Some((DayOf, today))
  }

  // ---------------------------------------------------------------------
  // Candidates
  // ---------------------------------------------------------------------

  /** What the job keeps of an event. */
  datatype Candidate = Candidate(eventId: string, name: string, phone: string, email: string,
                                 serviceHe: string, start: int)

  /** The first line holding `@`, stripped, or `""` when none does. */
  function FirstWithAt(lines: seq<string>): (email: string)
    decreases |lines|
  {
    if lines == [] then ""
    else if '@' in lines[0] then Strip(lines[0])
    else FirstWithAt(lines[1..])
  }

  /** The email is taken from the first line that holds `@`. */
  lemma {:induction false} FirstWithAtIsFirst(lines: seq<string>, i: int)
    requires 0 <= i < |lines| && '@' in lines[i]
    requires forall j :: 0 <= j < i ==> '@' !in lines[j]
    ensures FirstWithAt(lines) == Strip(lines[i])
    decreases i
  {
    if i > 0 {
      assert '@' !in lines[0];
      assert lines[1..][i - 1] == lines[i];
      FirstWithAtIsFirst(lines[1..], i - 1);
    }
  }

  /** No line holds `@`: no email. */
  lemma {:induction false} FirstWithAtNone(lines: seq<string>)
    requires forall j :: 0 <= j < |lines| ==> '@' !in lines[j]
    ensures FirstWithAt(lines) == ""
    decreases |lines|
  {
    if lines != [] {
      assert '@' !in lines[0];
      FirstWithAtNone(lines[1..]);
    }
  }

  /** The inner loop of the candidate builder, with its `break`. */
  method FindEmail(lines: seq<string>) returns (email: string)
    ensures email == FirstWithAt(lines)
  {
    email := "";
    for i := 0 to |lines|
      invariant forall j :: 0 <= j < i ==> '@' !in lines[j]
    {
      if '@' in lines[i] {
        email := Strip(lines[i]);
        FirstWithAtIsFirst(lines, i);
        return;
      }
    }
    FirstWithAtNone(lines);
  }

  /** An event becomes a candidate when its description is non-empty and
      has at least three non-blank lines, its id is non-empty and its start
      is a date-time. */
  function CandidateOf(item: CalendarItem): (r: Option<Candidate>)
    ensures item.start.DateOnly? ==> r.None?
    ensures |NonBlankLines(item.description)| < 3 ==> r.None?
    ensures item.id == [] ==> r.None?
    ensures r.Some? ==> r.value.eventId == item.id && item.start == DateTimeStart(r.value.start)
  {
    var lines := NonBlankLines(item.description);
    if item.description == [] || |lines| < 3 || item.id == [] || !item.start.DateTimeStart? then None
    else Some(Candidate(item.id, lines[1], lines[2], FirstWithAt(lines), lines[0], item.start.at))
  }

  /** The present values of a sequence of options, in order. */
  function Somes<T>(xs: seq<Option<T>>): seq<T>
    decreases |xs|
  {
    if xs == [] then []
    else
      var n := |xs| - 1;
      Somes(xs[..n]) + (if xs[n].Some? then [xs[n].value] else [])
  }

  lemma SomesStep<T>(xs: seq<Option<T>>, i: int)
    requires 0 <= i < |xs|
    ensures Somes(xs[..i + 1]) == Somes(xs[..i]) + (if xs[i].Some? then [xs[i].value] else [])
  {
    assert xs[..i + 1][..i] == xs[..i];
  }

  /** Exactly the present values are kept. */
  lemma {:induction false} SomesMember<T>(xs: seq<Option<T>>, x: T)
    ensures x in Somes(xs) <==> Some(x) in xs
    decreases |xs|
  {
    if xs != [] {
      var n := |xs| - 1;
      var tail := if xs[n].Some? then [xs[n].value] else [];
      assert xs == xs[..n] + [xs[n]];
      SomesMember(xs[..n], x);
      assert Somes(xs) == Somes(xs[..n]) + tail;
      assert x in Somes(xs) <==> x in Somes(xs[..n]) || x in tail;
      assert Some(x) in xs <==> Some(x) in xs[..n] || Some(x) == xs[n];
    }
  }

  function CandidateOpts(items: seq<CalendarItem>): (opts: seq<Option<Candidate>>)
    ensures |opts| == |items|
  {
    seq(|items|, k requires 0 <= k < |items| => CandidateOf(items[k]))
  }

  /** The candidates of a list of events, in event order. */
  function Candidates(items: seq<CalendarItem>): seq<Candidate> {
    Somes(CandidateOpts(items))
  }

  /** The loop that builds the candidate list, with its `continue`s. */
  method BuildCandidates(items: seq<CalendarItem>) returns (cs: seq<Candidate>)
    ensures cs == Candidates(items)
  {
    cs := [];
    ghost var opts := CandidateOpts(items);
    for i := 0 to |items|
      invariant cs == Somes(opts[..i])
    {
      SomesStep(opts, i);
      var item := items[i];
      assert opts[i] == CandidateOf(item);
      if item.description == [] {
        continue;
      }
      var lines := NonBlankLines(item.description);
      if |lines| < 3 {
        continue;
      }
      if item.id == [] {
        continue;
      }
      var email := FindEmail(lines);
      if item.start.DateOnly? {
        continue;
      }
      cs := cs + [Candidate(item.id, lines[1], lines[2], email, lines[0], item.start.at)];
    }
    assert opts[..|items|] == opts;
  }

  /** Round trip with the description `create_event` writes: a booking
      whose heading, name and phone hold no `@` and whose email does is read
      back whole, whatever the notes. */
  lemma FirstWithAtFourth(a: string, b: string, c: string, d: string, rest: seq<string>)
    requires '@' !in a && '@' !in b && '@' !in c && '@' in d
    ensures FirstWithAt([a] + [b] + [c] + [d] + rest) == Strip(d)
  {
    var lines := [a] + [b] + [c] + [d] + rest;
    FirstFour(a, b, c, d, rest);
    forall j | 0 <= j < 3 ensures '@' !in lines[j] {
      assert lines[j] == a || lines[j] == b || lines[j] == c;
    }
    FirstWithAtIsFirst(lines, 3);
  }

  lemma CandidateOfLines(item: CalendarItem, lines: seq<string>)
    requires NonBlankLines(item.description) == lines && |lines| >= 3
    requires item.id != [] && item.start.DateTimeStart?
    ensures CandidateOf(item)
            == Some(Candidate(item.id, lines[1], lines[2], FirstWithAt(lines), lines[0], item.start.at))
  {
    if item.description == [] {
      CleanEmpty();
      assert false;
    }
  }

  lemma CandidateRecoversBooking(heading: string, name: string, phone: string, email: string, notes: string,
                                 id: string, summary: string, at: int)
    requires OneLine(heading) && OneLine(name) && OneLine(phone) && OneLine(email)
    requires '@' !in heading && '@' !in name && '@' !in phone && '@' in email
    requires id != []
    ensures CandidateOf(CalendarItem(id, summary, Description(heading, name, phone, email, notes), DateTimeStart(at)))
            == Some(Candidate(id, name, phone, email, heading, at))
  {
    var item := CalendarItem(id, summary, Description(heading, name, phone, email, notes), DateTimeStart(at));
    var rest := if notes != [] then LinesOf(notes) else [];
    var lines := [heading] + [name] + [phone] + [email] + rest;
    DescriptionLinesOfFields(heading, name, phone, email, notes);
    FirstWithAtFourth(heading, name, phone, email, rest);
    FirstFour(heading, name, phone, email, rest);
    CandidateOfLines(item, lines);
  }

  /** On a description written for such a booking, the job and
      `parse_appointment_details` agree on every field they share. */
  lemma ParsersAgree(heading: string, name: string, phone: string, email: string, notes: string,
                     id: string, summary: string, at: int)
    requires OneLine(heading) && OneLine(name) && OneLine(phone) && OneLine(email)
    requires '@' !in heading && '@' !in name && '@' !in phone && '@' in email
    requires id != []
    ensures var item := CalendarItem(id, summary, Description(heading, name, phone, email, notes), DateTimeStart(at));
            var c := CandidateOf(item);
            var d := ParseAppointmentDetails(item);
            c.Some? && c.value.name == d.name && c.value.phone == d.phone && c.value.email == d.email
            && c.value.serviceHe == d.service && d.datetime == Some(c.value.start)
  {
    CandidateRecoversBooking(heading, name, phone, email, notes, id, summary, at);
    ParseRecoversBooking(heading, name, phone, email, notes, id, summary, DateTimeStart(at));
  }

  // ---------------------------------------------------------------------
  // Claims
  // ---------------------------------------------------------------------

  datatype Status = Pending | Sent | Failed

  /** A `reminder_sends` row: status, `created_at` and `error_message`. */
  datatype Claim = Claim(status: Status, createdAt: int, error: Option<string>)

  type Key = (string, Kind)

  /** A pending claim older than this many seconds belongs to a worker that
      crashed, and may be taken over. */
  const StaleAfter := 600

  /** The longest error message stored. */
  const MaxError := 500

  /** The claim row can be taken: absent, or pending and stale. */
  predicate Claimable(claims: map<Key, Claim>, key: Key, now: int) {
    key !in claims || (claims[key].status == Pending && claims[key].createdAt < now - StaleAfter)
  }

  datatype Tally = Tally(sent: nat, skipped: nat, failed: nat)

  datatype RunState = RunState(claims: map<Key, Claim>, tally: Tally)

  /** One candidate: skip it when its claim cannot be taken; otherwise the
      claim ends `sent` if the sends return and `failed`, with the message
      cut to 500 characters, if one raises. */
  function Step(st: RunState, c: Candidate, kind: Kind, now: int, failures: map<string, string>): (r: RunState)
    ensures Total(r.tally) == Total(st.tally) + 1
    ensures !Claimable(st.claims, (c.eventId, kind), now) ==> r.claims == st.claims
    ensures Claimable(st.claims, (c.eventId, kind), now) ==>
              (c.eventId, kind) in r.claims
              && r.claims[(c.eventId, kind)].createdAt == now
              && (r.claims[(c.eventId, kind)].status == Failed <==> c.eventId in failures)
              && (r.claims[(c.eventId, kind)].status == Sent <==> c.eventId !in failures)
  {
    var key := (c.eventId, kind);
    var t := st.tally;
    if !Claimable(st.claims, key, now) then RunState(st.claims, Tally(t.sent, t.skipped + 1, t.failed))
    else if c.eventId in failures then
      RunState(st.claims[key := Claim(Failed, now, Some(Take(failures[c.eventId], MaxError)))],
               Tally(t.sent, t.skipped, t.failed + 1))
    else RunState(st.claims[key := Claim(Sent, now, None)], Tally(t.sent + 1, t.skipped, t.failed))
  }

  /** The candidates handled in order. */
  function Replay(st: RunState, cs: seq<Candidate>, kind: Kind, now: int, failures: map<string, string>): (r: RunState)
    ensures Total(r.tally) == Total(st.tally) + |cs|
    decreases |cs|
  {
    if cs == [] then st
    else
      var n := |cs| - 1;
      Step(Replay(st, cs[..n], kind, now, failures), cs[n], kind, now, failures)
  }

  function Total(t: Tally): nat {
    t.sent + t.skipped + t.failed
  }

  lemma ReplayStep(st: RunState, cs: seq<Candidate>, kind: Kind, now: int, failures: map<string, string>, i: int)
    requires 0 <= i < |cs|
    ensures Replay(st, cs[..i + 1], kind, now, failures)
            == Step(Replay(st, cs[..i], kind, now, failures), cs[i], kind, now, failures)
  {
    assert cs[..i + 1][..i] == cs[..i];
  }

  /** A claim that is `sent` or `failed` is never taken again: its row
      stays as it is. */
  lemma {:induction false} ReplayKeepsSettledClaims(st: RunState, cs: seq<Candidate>, kind: Kind, now: int,
                                                    failures: map<string, string>, key: Key)
    requires key in st.claims && st.claims[key].status != Pending
    ensures var after := Replay(st, cs, kind, now, failures).claims;
            key in after && after[key] == st.claims[key]
    decreases |cs|
  {
    if cs != [] {
      ReplayKeepsSettledClaims(st, cs[..|cs| - 1], kind, now, failures, key);
    }
  }

  /** Rows of other events and of the other kind are untouched. */
  lemma {:induction false} ReplayTouchesOnlyCandidates(st: RunState, cs: seq<Candidate>, kind: Kind, now: int,
                                                       failures: map<string, string>, key: Key)
    requires key.1 != kind || forall c :: c in cs ==> c.eventId != key.0
    ensures var after := Replay(st, cs, kind, now, failures).claims;
            (key in after <==> key in st.claims) && (key in after ==> after[key] == st.claims[key])
    decreases |cs|
  {
    if cs != [] {
      var n := |cs| - 1;
      assert forall c :: c in cs[..n] ==> c in cs;
      assert cs[n] in cs;
      ReplayTouchesOnlyCandidates(st, cs[..n], kind, now, failures, key);
    }
  }

  /** After a run no candidate's claim can be taken at the same instant:
      each was settled by this run or was already held. */
  lemma {:induction false} ReplayLeavesNothingClaimable(st: RunState, cs: seq<Candidate>, kind: Kind, now: int,
                                                        failures: map<string, string>)
    ensures var after := Replay(st, cs, kind, now, failures).claims;
            forall c :: c in cs ==> !Claimable(after, (c.eventId, kind), now)
    decreases |cs|
  {
    if cs != [] {
      var n := |cs| - 1;
      var mid := Replay(st, cs[..n], kind, now, failures);
      ReplayLeavesNothingClaimable(st, cs[..n], kind, now, failures);
      var after := Step(mid, cs[n], kind, now, failures).claims;
      forall c | c in cs ensures !Claimable(after, (c.eventId, kind), now) {
        if c != cs[n] {
          assert c in cs[..n] by {
            var k :| 0 <= k < |cs| && cs[k] == c;
            assert k < n && cs[..n][k] == c;
          }
        }
      }
    }
  }

  /** When no candidate can be claimed, a run only skips. */
  lemma {:induction false} ReplayAllHeld(st: RunState, cs: seq<Candidate>, kind: Kind, now: int,
                                         failures: map<string, string>)
    requires forall c :: c in cs ==> !Claimable(st.claims, (c.eventId, kind), now)
    ensures Replay(st, cs, kind, now, failures)
            == RunState(st.claims, Tally(st.tally.sent, st.tally.skipped + |cs|, st.tally.failed))
    decreases |cs|
  {
    if cs != [] {
      var n := |cs| - 1;
      assert forall c :: c in cs[..n] ==> c in cs;
      assert cs[n] in cs;
      ReplayAllHeld(st, cs[..n], kind, now, failures);
    }
  }

  /** At most once: running the same candidates again at the same instant
      sends nothing, fails nothing and changes no claim, whatever the
      sends would do. */
  lemma RerunSendsNothing(st: RunState, cs: seq<Candidate>, kind: Kind, now: int,
                          failures: map<string, string>, failures2: map<string, string>)
    ensures var first := Replay(st, cs, kind, now, failures);
            var second := Replay(RunState(first.claims, Tally(0, 0, 0)), cs, kind, now, failures2);
            second.claims == first.claims && second.tally == Tally(0, |cs|, 0)
  {
    var first := Replay(st, cs, kind, now, failures);
    ReplayLeavesNothingClaimable(st, cs, kind, now, failures);
    ReplayAllHeld(RunState(first.claims, Tally(0, 0, 0)), cs, kind, now, failures2);
  }

  predicate ErrorsBounded(claims: map<Key, Claim>) {
    forall key :: key in claims && claims[key].error.Some? ==> |claims[key].error.value| <= MaxError
  }

  /** Stored error messages never exceed 500 characters. */
  lemma {:induction false} ReplayBoundsErrors(st: RunState, cs: seq<Candidate>, kind: Kind, now: int,
                                              failures: map<string, string>)
    requires ErrorsBounded(st.claims)
    ensures ErrorsBounded(Replay(st, cs, kind, now, failures).claims)
    decreases |cs|
  {
    if cs != [] {
      ReplayBoundsErrors(st, cs[..|cs| - 1], kind, now, failures);
    }
  }

  lemma Overwrite<K, V>(m: map<K, V>, k: K, a: V, b: V)
    ensures m[k := a][k := b] == m[k := b]
  {
  }

  // ---------------------------------------------------------------------
  // The job
  // ---------------------------------------------------------------------

  /** The claim table with the run lock. */
  class ReminderLedger {
    var claims: map<Key, Claim>
    var lockHeld: bool

    constructor()
      ensures claims == map[] && !lockHeld
    {
      claims := map[];
      lockHeld := false;
    }

    /** The claim loop: each candidate in order, counting what happened. */
    method HandleCandidates(cs: seq<Candidate>, kind: Kind, now: int, failures: map<string, string>)
      returns (tally: Tally)
      modifies this
      ensures RunState(claims, tally) == Replay(RunState(old(claims), Tally(0, 0, 0)), cs, kind, now, failures)
      ensures lockHeld == old(lockHeld)
    {
      tally := Tally(0, 0, 0);
      for i := 0 to |cs|
        invariant lockHeld == old(lockHeld)
        invariant Replay(RunState(old(claims), Tally(0, 0, 0)), cs[..i], kind, now, failures)
                  == RunState(claims, tally)
      {
        ReplayStep(RunState(old(claims), Tally(0, 0, 0)), cs, kind, now, failures, i);
        tally := HandleCandidate(cs[i], kind, now, failures, tally);
      }
      assert cs[..|cs|] == cs;
    }

    /** One pass of the loop: insert a pending row or take over a stale
        pending one, then settle it; or skip the candidate. */
    method HandleCandidate(c: Candidate, kind: Kind, now: int, failures: map<string, string>, counts: Tally)
      returns (tally: Tally)
      modifies this
      ensures RunState(claims, tally) == Step(RunState(old(claims), counts), c, kind, now, failures)
      ensures lockHeld == old(lockHeld)
    {
      var sent, skipped, failed := counts.sent, counts.skipped, counts.failed;
      var key := (c.eventId, kind);
      var owns := key !in claims || (claims[key].status == Pending && claims[key].createdAt < now - StaleAfter);
      if !owns {
        return Tally(sent, skipped + 1, failed);
      }
      ghost var before := claims;
      claims := claims[key := Claim(Pending, now, None)];
      var settled;
      if c.eventId in failures {
        settled := Claim(Failed, now, Some(Take(failures[c.eventId], MaxError)));
        failed := failed + 1;
      } else {
        settled := Claim(Sent, now, None);
        sent := sent + 1;
      }
      claims := claims[key := settled];
      Overwrite(before, key, Claim(Pending, now, None), settled);
      tally := Tally(sent, skipped, failed);
    }

    /** One run of the job. It does nothing at other hours, when the
        calendar query raised, when there is no candidate, or when another
        worker holds the lock; otherwise it handles every candidate in
        order and releases the lock. The report is the run's tally. The
        plan's target day only sets the window of the calendar query, whose
        answer is `lookup`. */
    method RunReminders(now: int, lookup: Option<seq<CalendarItem>>, lockAcquired: bool,
                        failures: map<string, string>) returns (report: Option<Tally>)
      requires !lockHeld
      modifies this
      ensures !lockHeld
      ensures var plan := ReminderPlan(HourOf(now), DayNumber(now));
              if plan.None? || lookup.None? || Candidates(lookup.value) == [] || !lockAcquired then
                report.None? && claims == old(claims)
              else
                var run := Replay(RunState(old(claims), Tally(0, 0, 0)), Candidates(lookup.value),
                                  plan.value.0, now, failures);
                claims == run.claims && report == Some(run.tally)
    {
      var plan := ReminderPlan(HourOf(now), DayNumber(now));
      if plan.None? {
        return None;
      }
      var kind := plan.value.0;
      if lookup.None? {
        return None;
      }
      var cs := BuildCandidates(lookup.value);
      if cs == [] {
        return None;
      }
      if !lockAcquired {
        return None;
      }
      lockHeld := true;
      var tally := HandleCandidates(cs, kind, now, failures);
      lockHeld := false;
      report := Some(tally);
    }
  }
}
