/** One-time passwords for the booking form.

    whatsapp_otp.py keeps the codes in a process-wide dictionary keyed by
    the WhatsApp form of the phone; otp_service.py, twilio_otp.py and
    whatsapp_otp_db.py keep them in the `otp_codes` table, one live row per
    phone, keyed by the E.164 form (the first two) or the WhatsApp form (the
    third). All four run the same decision sequence: cooldown, expiry, code.
    Clocks are in whole seconds and passed in; the code that would be drawn
    at random and the sender's success are parameters. */
module Otp {
  import opened Wrappers
  import opened Text
  import opened Phone

  const ExpirySeconds := 300
  const MaxAttempts := 3
  const CooldownSeconds := 900
  /** `_cleanup_expired` keeps an entry for three times its lifetime. */
  const RetainSeconds := 3 * ExpirySeconds

  datatype RequestOutcome =
    | InvalidPhone
    | CoolingDown(minutes: int)
    | Issued(mock: bool)

  datatype VerifyOutcome =
    | BadPhone
    | NoCode
    | Locked(minutes: int)
    | CodeExpired
    | WrongCode(remaining: nat)
    | TooManyAttempts
    | Verified

  /** The whole minutes quoted to a locked-out user: `remaining // 60 + 1`. */
  function MinutesLeft(until: int, now: int): (m: int)
    requires now < until
    ensures m >= 1 && (m - 1) * 60 <= until - now < m * 60
  {
    (until - now) / 60 + 1
  }

  predicate InCooldown(cooldownUntil: Option<int>, now: int) {
    cooldownUntil.Some? && now < cooldownUntil.value
  }

  // ---------------------------------------------------------------------
  // whatsapp_otp.py: the in-memory store

  datatype OtpEntry = OtpEntry(code: string, createdAt: int, attempts: nat, cooldownUntil: Option<int>)

  type Store = map<string, OtpEntry>

  /** What `_cleanup_expired` leaves: exactly the entries created at most
      `RetainSeconds` ago, unchanged. */
  function Retained(store: Store, now: int): (r: Store)
    ensures forall p :: p in r <==> p in store && now - store[p].createdAt <= RetainSeconds
    ensures forall p :: p in r ==> r[p] == store[p]
  {
    map p | p in store && now - store[p].createdAt <= RetainSeconds :: store[p]
  }

  /** `request_otp`: clean up, normalise, refuse during a cooldown, else
      store a fresh entry; `mock` is set when the code was not sent. */
  function RequestInMemory(store: Store, phone: string, code: string, now: int, sent: bool)
    : (RequestOutcome, Store)
  {
    var kept := Retained(store, now);
    match WhatsAppPhone(phone)
    case None => (InvalidPhone, kept)
    case Some(p) =>
      if p in kept && InCooldown(kept[p].cooldownUntil, now) then
        (CoolingDown(MinutesLeft(kept[p].cooldownUntil.value, now)), kept)
      else
        (Issued(!sent), kept[p := OtpEntry(code, now, 0, None)])
  }

  /** The decision `verify_otp` takes on a stored entry, and the entry it
      leaves (`None` once deleted). */
  function VerifyEntry(e: OtpEntry, code: string, now: int): (VerifyOutcome, Option<OtpEntry>) {
    if InCooldown(e.cooldownUntil, now) then
      (Locked(MinutesLeft(e.cooldownUntil.value, now)), Some(e))
    else if now - e.createdAt > ExpirySeconds then
      (CodeExpired, None)
    else if e.code != Strip(code) then
      var attempts := e.attempts + 1;
      if attempts >= MaxAttempts then
        (TooManyAttempts, Some(e.(attempts := attempts, cooldownUntil := Some(now + CooldownSeconds))))
      else
        (WrongCode(MaxAttempts - attempts), Some(e.(attempts := attempts)))
    else
      (Verified, None)
  }

  /** `verify_otp` over the whole store. */
  function VerifyInMemory(store: Store, phone: string, code: string, now: int): (VerifyOutcome, Store) {
    match WhatsAppPhone(phone)
    case None => (BadPhone, store)
    case Some(p) => VerifyStored(store, p, code, now)
  }

  /** `verify_otp` once the phone is normalised to `p`. */
  function VerifyStored(store: Store, p: string, code: string, now: int): (VerifyOutcome, Store) {
    if p !in store then (NoCode, store)
    else
      var step := VerifyEntry(store[p], code, now);
      (step.0, if step.1.Some? then store[p := step.1.value] else store - {p})
  }

  /** The store behind whatsapp_otp.py. */
  class WhatsAppOtpStore {
    var store: Store

    constructor()
      ensures store == map[]
    {
      store := map[];
    }

    /** `_cleanup_expired`: collect the stale phones, then delete them one
        by one. */
    method CleanupExpired(now: int)
      modifies this
      ensures store == Retained(old(store), now)
    {
      ghost var before := store;
      var expired := set p | p in store && now - store[p].createdAt > RetainSeconds;
      while expired != {}
        invariant forall p :: p in expired ==> p in before && now - before[p].createdAt > RetainSeconds
        invariant forall p :: p in store <==> p in before && (p in expired || now - before[p].createdAt <= RetainSeconds)
        invariant forall p :: p in store ==> store[p] == before[p]
        decreases |expired|
      {
        var p :| p in expired;
        store := store - {p};
        expired := expired - {p};
      }
      assert store.Keys == Retained(before, now).Keys;
    }

    /** `request_otp`. */
    method RequestOtp(phone: string, code: string, now: int, sent: bool) returns (outcome: RequestOutcome)
      modifies this
      ensures (outcome, store) == RequestInMemory(old(store), phone, code, now, sent)
    {
      CleanupExpired(now);
      var norm := WhatsAppPhone(phone);
      if norm.None? {
        return InvalidPhone;
      }
      var p := norm.value;
      if p in store && InCooldown(store[p].cooldownUntil, now) {
        return CoolingDown(MinutesLeft(store[p].cooldownUntil.value, now));
      }
      store := store[p := OtpEntry(code, now, 0, None)];
      outcome := Issued(!sent);
    }

    /** `verify_otp`. */
    method VerifyOtp(phone: string, code: string, now: int) returns (outcome: VerifyOutcome)
      modifies this
      ensures (outcome, store) == VerifyInMemory(old(store), phone, code, now)
    {
      var norm := WhatsAppPhone(phone);
      if norm.None? {
        return BadPhone;
      }
      outcome := VerifyNormalized(norm.value, code, now);
    }

    /** The checks of `verify_otp` after the phone was normalised. */
    method VerifyNormalized(p: string, code: string, now: int) returns (outcome: VerifyOutcome)
      modifies this
      ensures (outcome, store) == VerifyStored(old(store), p, code, now)
    {
      if p !in store {
        return NoCode;
      }
      var stored := store[p];
      if InCooldown(stored.cooldownUntil, now) {
        assert store[p := stored] == store;
        return Locked(MinutesLeft(stored.cooldownUntil.value, now));
      }
      if now - stored.createdAt > ExpirySeconds {
        store := store - {p};
        return CodeExpired;
      }
      if stored.code != Strip(code) {
        stored := stored.(attempts := stored.attempts + 1);
        if stored.attempts >= MaxAttempts {
          stored := stored.(cooldownUntil := Some(now + CooldownSeconds));
          store := store[p := stored];
          return TooManyAttempts;
        }
        store := store[p := stored];
        return WrongCode(MaxAttempts - stored.attempts);
      }
      store := store - {p};
      outcome := Verified;
    }
  }

  // ---------------------------------------------------------------------
  // otp_service.py, twilio_otp.py, whatsapp_otp_db.py: the otp_codes table

  /** Which service owns the table, and so which phone form is its key. */
  datatype Channel = ActiveTrailSms | TwilioSms | WhatsAppDb

  function StorageKey(channel: Channel, phone: string): (r: Option<string>)
    ensures channel != WhatsAppDb ==> r == NormalizeIsraeliPhone(phone)
    ensures channel == WhatsAppDb ==> r == WhatsAppPhone(phone)
  {
    match channel
    case ActiveTrailSms => NormalizeIsraeliPhone(phone)
    case TwilioSms => NormalizeIsraeliPhone(phone)
    case WhatsAppDb => WhatsAppPhone(phone)
  }

  /** A live `otp_codes` row (`verified` is always false on a live row: a
      verified code is deleted). */
  datatype OtpRow = OtpRow(code: string, expiresAt: int, attempts: nat, cooldownUntil: Option<int>)

  type Table = map<string, OtpRow>

  /** `request_otp` of the table-backed services. */
  function RequestInTable(table: Table, channel: Channel, phone: string, code: string, now: int, sent: bool)
    : (RequestOutcome, Table)
  {
    match StorageKey(channel, phone)
    case None => (InvalidPhone, table)
    case Some(p) =>
      if p in table && InCooldown(table[p].cooldownUntil, now) then
        (CoolingDown(MinutesLeft(table[p].cooldownUntil.value, now)), table)
      else
        (Issued(!sent), (table - {p})[p := OtpRow(code, now + ExpirySeconds, 0, None)])
  }

  /** The decision `verify_otp` takes on the phone's row. */
  function VerifyRow(row: OtpRow, code: string, now: int): (VerifyOutcome, Option<OtpRow>) {
    if InCooldown(row.cooldownUntil, now) then
      (Locked(MinutesLeft(row.cooldownUntil.value, now)), Some(row))
    else if row.expiresAt < now then
      (CodeExpired, None)
    else if row.code != Strip(code) then
      var attempts := row.attempts + 1;
      if attempts >= MaxAttempts then
        (TooManyAttempts, Some(row.(attempts := attempts, cooldownUntil := Some(now + CooldownSeconds))))
      else
        (WrongCode(MaxAttempts - attempts), Some(row.(attempts := attempts)))
    else
      (Verified, None)
  }

  function VerifyInTable(table: Table, channel: Channel, phone: string, code: string, now: int)
    : (VerifyOutcome, Table)
  {
    match StorageKey(channel, phone)
    case None => (BadPhone, table)
    case Some(p) => VerifyKeyedRow(table, p, code, now)
  }

  /** `verify_otp` once the phone is normalised to the key `p`. */
  function VerifyKeyedRow(table: Table, p: string, code: string, now: int): (VerifyOutcome, Table) {
    if p !in table then (NoCode, table)
    else
      var step := VerifyRow(table[p], code, now);
      (step.0, if step.1.Some? then table[p := step.1.value] else table - {p})
  }

  /** The `otp_codes` table as one of the three services sees it. */
  class OtpTable {
    const channel: Channel
    var rows: Table

    constructor(channel: Channel)
      ensures this.channel == channel && rows == map[]
    {
      this.channel := channel;
      rows := map[];
    }

    /** `request_otp`: the cooldown query, then delete the phone's rows
        and insert a fresh one. */
    method RequestOtp(phone: string, code: string, now: int, sent: bool) returns (outcome: RequestOutcome)
      modifies this
      ensures (outcome, rows) == RequestInTable(old(rows), channel, phone, code, now, sent)
    {
      var key := StorageKey(channel, phone);
      if key.None? {
        return InvalidPhone;
      }
      var p := key.value;
      if p in rows && InCooldown(rows[p].cooldownUntil, now) {
        return CoolingDown(MinutesLeft(rows[p].cooldownUntil.value, now));
      }
      rows := rows - {p};
      rows := rows[p := OtpRow(code, now + ExpirySeconds, 0, None)];
      outcome := Issued(!sent);
    }

    /** `verify_otp`. */
    method VerifyOtp(phone: string, code: string, now: int) returns (outcome: VerifyOutcome)
      modifies this
      ensures (outcome, rows) == VerifyInTable(old(rows), channel, phone, code, now)
    {
      var key := StorageKey(channel, phone);
      if key.None? {
        return BadPhone;
      }
      outcome := VerifyKeyed(key.value, code, now);
    }

    /** The checks of `verify_otp` after the phone was normalised. */
    method VerifyKeyed(p: string, code: string, now: int) returns (outcome: VerifyOutcome)
      modifies this
      ensures (outcome, rows) == VerifyKeyedRow(old(rows), p, code, now)
    {
      if p !in rows {
        return NoCode;
      }
      var stored := rows[p];
      if InCooldown(stored.cooldownUntil, now) {
        assert rows[p := stored] == rows;
        return Locked(MinutesLeft(stored.cooldownUntil.value, now));
      }
      if stored.expiresAt < now {
        rows := rows - {p};
        return CodeExpired;
      }
      if stored.code != Strip(code) {
        var attempts := stored.attempts + 1;
        if attempts >= MaxAttempts {
          rows := rows[p := stored.(attempts := attempts, cooldownUntil := Some(now + CooldownSeconds))];
          return TooManyAttempts;
        }
        rows := rows[p := stored.(attempts := attempts)];
        return WrongCode(MaxAttempts - attempts);
      }
      rows := rows - {p};
      outcome := Verified;
    }
  }

  // ---------------------------------------------------------------------
  // Properties of the in-memory store

  /** An invalid phone issues nothing (the cleanup has already run); a valid
      one is refused only while its retained entry is cooling down, and
      otherwise gets a fresh entry, every other phone keeping its retained
      entry. */
  lemma RequestIssuesFreshEntry(store: Store, phone: string, code: string, now: int, sent: bool)
    ensures var r := RequestInMemory(store, phone, code, now, sent);
            var kept := Retained(store, now);
            (WhatsAppPhone(phone).None? ==> r.0 == InvalidPhone && r.1 == kept)
            && (WhatsAppPhone(phone).Some? ==>
                  var p := WhatsAppPhone(phone).value;
                  (r.0.Issued? <==> !(p in kept && InCooldown(kept[p].cooldownUntil, now)))
                  && (r.0.Issued? ==>
                        r.0.mock == !sent && p in r.1 && r.1[p] == OtpEntry(code, now, 0, None)
                        && forall q :: q != p ==> (q in r.1 <==> q in kept) && (q in r.1 ==> r.1[q] == kept[q]))
                  && (!r.0.Issued? ==> r.0.CoolingDown? && r.1 == kept))
  {
  }

  /** A request made while the phone's entry is cooling down, and before
      the cleanup drops that entry, is refused and keeps the entry. */
  lemma RequestRefusedWhileRetainedCooldown(store: Store, phone: string, code: string, now: int, sent: bool)
    requires WhatsAppPhone(phone).Some? && WhatsAppPhone(phone).value in store
    requires var e := store[WhatsAppPhone(phone).value];
             InCooldown(e.cooldownUntil, now) && now - e.createdAt <= RetainSeconds
    ensures var p := WhatsAppPhone(phone).value;
            var r := RequestInMemory(store, phone, code, now, sent);
            r.0.CoolingDown? && p in r.1 && r.1[p] == store[p]
  {
  }

  /** The checks after normalisation, in the order `verify_otp` makes
      them: no entry, cooldown, expiry, then the code itself. */
  lemma StoredChecksInOrder(store: Store, p: string, code: string, now: int)
    ensures var r := VerifyStored(store, p, code, now);
            (p !in store ==> r.0 == NoCode && r.1 == store)
            && (p in store ==>
                  var e := store[p];
                  var attempts := e.attempts + 1;
                  (InCooldown(e.cooldownUntil, now) ==> r.0.Locked? && r.1 == store)
                  && (!InCooldown(e.cooldownUntil, now) && now - e.createdAt > ExpirySeconds ==>
                        r.0 == CodeExpired && r.1 == store - {p})
                  && (!InCooldown(e.cooldownUntil, now) && now - e.createdAt <= ExpirySeconds ==>
                        (e.code == Strip(code) ==> r.0 == Verified && r.1 == store - {p})
                        && (e.code != Strip(code) && attempts >= MaxAttempts ==>
                              r.0 == TooManyAttempts
                              && r.1 == store[p := e.(attempts := attempts, cooldownUntil := Some(now + CooldownSeconds))])
                        && (e.code != Strip(code) && attempts < MaxAttempts ==>
                              r.0 == WrongCode(MaxAttempts - attempts) && r.1 == store[p := e.(attempts := attempts)])))
  {
  }

  /** Once a code has been accepted the phone has no entry left, so no
      second verification of it can succeed. */
  lemma VerifiesAtMostOnce(store: Store, phone: string, code: string, now: int, again: string, later: int)
    requires VerifyInMemory(store, phone, code, now).0 == Verified
    ensures VerifyInMemory(VerifyInMemory(store, phone, code, now).1, phone, again, later).0 == NoCode
  {
    var p := WhatsAppPhone(phone).value;
    var step := VerifyEntry(store[p], code, now);
    assert step.1.None?;
    assert VerifyInMemory(store, phone, code, now).1 == store - {p};
  }

  /** An entry that is still counting attempts has no cooldown; one that
      has used them all has a cooldown that outlasts its expiry. */
  predicate Settled(e: OtpEntry) {
    (e.attempts < MaxAttempts && e.cooldownUntil.None?)
    || (e.attempts == MaxAttempts && e.cooldownUntil.Some? && e.cooldownUntil.value > e.createdAt + ExpirySeconds)
  }

  /** Every entry is settled and was created no later than `now`. */
  ghost predicate StoreSettled(store: Store, now: int) {
    forall p :: p in store ==> Settled(store[p]) && store[p].createdAt <= now
  }

  /** With a clock that does not run backwards, requests and verifications
      keep every entry settled: attempts never exceed three. */
  lemma OperationsKeepStoreSettled(store: Store, phone: string, code: string, now: int, sent: bool, later: int)
    requires StoreSettled(store, now) && now <= later
    ensures StoreSettled(RequestInMemory(store, phone, code, later, sent).1, later)
    ensures StoreSettled(VerifyInMemory(store, phone, code, later).1, later)
  {
    var p := WhatsAppPhone(phone);
    if p.Some? && p.value in store {
      VerifyKeepsSettled(store[p.value], code, later);
    }
  }

  lemma VerifyKeepsSettled(e: OtpEntry, code: string, now: int)
    requires Settled(e) && e.createdAt <= now
    ensures var r := VerifyEntry(e, code, now);
            r.1.Some? ==> Settled(r.1.value) && r.1.value.createdAt == e.createdAt
  {
  }

  /** An entry that has used its three attempts is never accepted again: it
      is locked until its cooldown ends, and by then it has expired. */
  lemma LockedOutNeverVerifies(e: OtpEntry, code: string, now: int)
    requires Settled(e) && e.createdAt <= now && e.attempts == MaxAttempts
    ensures VerifyEntry(e, code, now).0.Locked? || VerifyEntry(e, code, now).0 == CodeExpired
  {
  }

  // ---------------------------------------------------------------------
  // The cleanup cuts a cooldown short

  /** Three wrong codes, the last one 300 seconds after the code was
      issued, lock the phone until second 1200 after issue; but a request
      at second 1000 finds the entry gone (it is older than
      `RetainSeconds`) and issues a fresh code. Shown for every local
      number `0` + `d`. */
  lemma CleanupCutsCooldownShort(d: string, code: string, wrong: string, issued: int, newCode: string)
    requires |d| == 9 && AllDigits(d) && Strip(wrong) != code
    ensures var locked := VerifyEntry(OtpEntry(code, issued, 2, None), wrong, issued + 300);
            locked == (TooManyAttempts, Some(OtpEntry(code, issued, 3, Some(issued + 1200))))
            && InCooldown(locked.1.value.cooldownUntil, issued + 1000)
            && RequestInMemory(map["972" + d := locked.1.value], "0" + d, newCode, issued + 1000, false).0 == Issued(true)
  {
    var entry := OtpEntry(code, issued, 3, Some(issued + 1200));
    ThirdWrongCodeLocks(code, wrong, issued);
    WhatsAppTrunkForm(d);
    StaleEntryDropped("972" + d, entry, issued + 1000);
    RequestIssuesAfterCleanup(map["972" + d := entry], "0" + d, "972" + d, newCode, issued + 1000, false);
  }

  lemma ThirdWrongCodeLocks(code: string, wrong: string, issued: int)
    requires Strip(wrong) != code
    ensures VerifyEntry(OtpEntry(code, issued, 2, None), wrong, issued + 300)
            == (TooManyAttempts, Some(OtpEntry(code, issued, 3, Some(issued + 1200))))
  {
  }

  lemma StaleEntryDropped(p: string, e: OtpEntry, now: int)
    requires now - e.createdAt > RetainSeconds
    ensures Retained(map[p := e], now) == map[]
  {
    assert Retained(map[p := e], now).Keys == {};
  }

  lemma RequestIssuesAfterCleanup(store: Store, phone: string, p: string, code: string, now: int, sent: bool)
    requires WhatsAppPhone(phone) == Some(p) && Retained(store, now) == map[]
    ensures RequestInMemory(store, phone, code, now, sent).0 == Issued(!sent)
  {
  }

  /** The cleanup that spares entries still cooling down. */
  function RetainedKeepingCooldowns(store: Store, now: int): (r: Store)
    ensures forall p :: p in r <==>
              p in store && (now - store[p].createdAt <= RetainSeconds || InCooldown(store[p].cooldownUntil, now))
    ensures forall p :: p in r ==> r[p] == store[p]
  {
    map p | p in store && (now - store[p].createdAt <= RetainSeconds || InCooldown(store[p].cooldownUntil, now))
      :: store[p]
  }

  /** `request_otp` with that cleanup. */
  function RequestInMemoryCorrected(store: Store, phone: string, code: string, now: int, sent: bool)
    : (RequestOutcome, Store)
  {
    var kept := RetainedKeepingCooldowns(store, now);
    match WhatsAppPhone(phone)
    case None => (InvalidPhone, kept)
    case Some(p) =>
      if p in kept && InCooldown(kept[p].cooldownUntil, now) then
        (CoolingDown(MinutesLeft(kept[p].cooldownUntil.value, now)), kept)
      else
        (Issued(!sent), kept[p := OtpEntry(code, now, 0, None)])
  }

  /** With it, a request during a cooldown is always refused and keeps the
      entry, however old the entry is. */
  lemma CorrectedRequestRespectsCooldown(store: Store, phone: string, code: string, now: int, sent: bool)
    requires WhatsAppPhone(phone).Some? && WhatsAppPhone(phone).value in store
    requires InCooldown(store[WhatsAppPhone(phone).value].cooldownUntil, now)
    ensures var p := WhatsAppPhone(phone).value;
            var r := RequestInMemoryCorrected(store, phone, code, now, sent);
            r.0.CoolingDown? && p in r.1 && r.1[p] == store[p]
  {
  }

  /** Where no stale entry is cooling down, the two cleanups agree. */
  lemma CorrectionChangesOnlyCutShortCooldowns(store: Store, phone: string, code: string, now: int, sent: bool)
    requires forall p :: p in store && now - store[p].createdAt > RetainSeconds ==> !InCooldown(store[p].cooldownUntil, now)
    ensures RequestInMemoryCorrected(store, phone, code, now, sent) == RequestInMemory(store, phone, code, now, sent)
  {
    assert RetainedKeepingCooldowns(store, now) == Retained(store, now);
  }

  // ---------------------------------------------------------------------
  // Properties of the otp_codes table

  /** An invalid phone changes no row, in either operation. */
  lemma TableInvalidPhoneTouchesNothing(table: Table, channel: Channel, phone: string, code: string, now: int, sent: bool)
    requires StorageKey(channel, phone).None?
    ensures RequestInTable(table, channel, phone, code, now, sent) == (InvalidPhone, table)
    ensures VerifyInTable(table, channel, phone, code, now) == (BadPhone, table)
  {
  }

  /** A request is refused, with no change, exactly while the phone's row
      is cooling down; otherwise the phone has exactly one row, fresh,
      expiring in five minutes, and no other phone's row changes. */
  lemma TableRequestReplacesRow(table: Table, channel: Channel, phone: string, code: string, now: int, sent: bool)
    requires StorageKey(channel, phone).Some?
    ensures var p := StorageKey(channel, phone).value;
            var r := RequestInTable(table, channel, phone, code, now, sent);
            (p in table && InCooldown(table[p].cooldownUntil, now) ==> r.0.CoolingDown? && r.1 == table)
            && (!(p in table && InCooldown(table[p].cooldownUntil, now)) ==>
                  r.0 == Issued(!sent)
                  && r.1 == table[p := OtpRow(code, now + ExpirySeconds, 0, None)])
  {
    var p := StorageKey(channel, phone).value;
    assert (table - {p})[p := OtpRow(code, now + ExpirySeconds, 0, None)]
        == table[p := OtpRow(code, now + ExpirySeconds, 0, None)];
  }

  /** The checks after normalisation, in the order `verify_otp` makes
      them: no row, cooldown, expiry, then the code itself. */
  lemma KeyedRowChecksInOrder(table: Table, p: string, code: string, now: int)
    ensures var r := VerifyKeyedRow(table, p, code, now);
            (p !in table ==> r.0 == NoCode && r.1 == table)
            && (p in table ==>
                  var row := table[p];
                  var attempts := row.attempts + 1;
                  (InCooldown(row.cooldownUntil, now) ==> r.0.Locked? && r.1 == table)
                  && (!InCooldown(row.cooldownUntil, now) && row.expiresAt < now ==>
                        r.0 == CodeExpired && r.1 == table - {p})
                  && (!InCooldown(row.cooldownUntil, now) && now <= row.expiresAt ==>
                        (row.code == Strip(code) ==> r.0 == Verified && r.1 == table - {p})
                        && (row.code != Strip(code) && attempts >= MaxAttempts ==>
                              r.0 == TooManyAttempts
                              && r.1 == table[p := row.(attempts := attempts, cooldownUntil := Some(now + CooldownSeconds))])
                        && (row.code != Strip(code) && attempts < MaxAttempts ==>
                              r.0 == WrongCode(MaxAttempts - attempts) && r.1 == table[p := row.(attempts := attempts)])))
  {
  }

  /** An accepted code deletes its row: it cannot be accepted twice. */
  lemma TableVerifiesAtMostOnce(table: Table, channel: Channel, phone: string, code: string, now: int,
                                again: string, later: int)
    requires VerifyInTable(table, channel, phone, code, now).0 == Verified
    ensures VerifyInTable(VerifyInTable(table, channel, phone, code, now).1, channel, phone, again, later).0 == NoCode
  {
    var p := StorageKey(channel, phone).value;
    var step := VerifyRow(table[p], code, now);
    assert step.1.None?;
    var after := VerifyKeyedRow(table, p, code, now).1;
    assert after == table - {p};
    assert VerifyInTable(table, channel, phone, code, now).1 == after;
    assert VerifyKeyedRow(after, p, again, later).0 == NoCode;
  }

  /** The row the table holds for an entry of the in-memory store: it
      expires `ExpirySeconds` after the entry was created. */
  function RowOf(e: OtpEntry): (row: OtpRow)
    ensures row.expiresAt - ExpirySeconds == e.createdAt
    ensures row.code == e.code && row.attempts == e.attempts && row.cooldownUntil == e.cooldownUntil
  {
    OtpRow(e.code, e.createdAt + ExpirySeconds, e.attempts, e.cooldownUntil)
  }

  /** The two machines take the same decision on corresponding state and
      leave corresponding state: `now - created_at > 300` and
      `expires_at < now` are the same test. */
  lemma MemoryAndTableAgree(e: OtpEntry, code: string, now: int)
    ensures var m := VerifyEntry(e, code, now);
            var t := VerifyRow(RowOf(e), code, now);
            t.0 == m.0 && t.1.Some? == m.1.Some? && (m.1.Some? ==> t.1.value == RowOf(m.1.value))
  {
  }
}
