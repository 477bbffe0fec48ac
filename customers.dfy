/** customer_service.py: the `customers` table, keyed by the canonical
    phone number (`phone` is UNIQUE), with validation on insert,
    get-or-create, lookups that normalise the phone first, the update that
    never touches the phone, and the guard of the search. A row's `id`
    stands for the UUID the database draws; the clock is a parameter. */
module Customers {
  import opened Wrappers
  import opened Text
  import opened Phone

  datatype Customer = Customer(id: nat, name: string, phone: string, email: string, updatedAt: int)

  /** The row with the given stored phone. */
  function FindByPhone(rows: seq<Customer>, phone: string): (r: Option<Customer>)
    ensures r.Some? ==> r.value in rows && r.value.phone == phone
    ensures r.None? <==> forall k :: 0 <= k < |rows| ==> rows[k].phone != phone
    decreases |rows|
  {
    if rows == [] then None
    else if rows[0].phone == phone then Some(rows[0])
    else
      var r := FindByPhone(rows[1..], phone);
      assert r.None? ==> forall k :: 0 <= k < |rows| ==> rows[k].phone != phone by {
        if r.None? {
          forall k | 0 <= k < |rows| ensures rows[k].phone != phone {
            if k > 0 { assert rows[k] == rows[1..][k - 1]; }
          }
        }
      }
      assert r.Some? ==> r.value in rows by {
        if r.Some? { assert r.value in rows[1..]; }
      }
      r
  }

  /** `get_customer_by_phone`: normalise, then look up; an input that does
      not normalise finds nothing. */
  function CustomerByPhone(rows: seq<Customer>, phone: string): (r: Option<Customer>)
    ensures NormalizeIsraeliPhone(phone).None? ==> r.None?
    ensures r.Some? ==> r.value in rows && Some(r.value.phone) == NormalizeIsraeliPhone(phone)
  {
    match NormalizeIsraeliPhone(phone)
    case None => None
    case Some(p) => FindByPhone(rows, p)
  }

  lemma CustomerByPhoneIs(rows: seq<Customer>, phone: string, p: string)
    requires NormalizeIsraeliPhone(phone) == Some(p)
    ensures CustomerByPhone(rows, phone) == FindByPhone(rows, p)
  {
  }

  /** `customer_exists`. */
  function CustomerExists(rows: seq<Customer>, phone: string): (b: bool)
    ensures b <==> CustomerByPhone(rows, phone).Some?
    ensures b <==> NormalizeIsraeliPhone(phone).Some?
                   && exists k :: 0 <= k < |rows| && Some(rows[k].phone) == NormalizeIsraeliPhone(phone)
  {
    var r := CustomerByPhone(rows, phone);
    assert r.Some? ==> exists k :: 0 <= k < |rows| && Some(rows[k].phone) == NormalizeIsraeliPhone(phone) by {
      if r.Some? {
        var k :| 0 <= k < |rows| && rows[k] == r.value;
      }
    }
    r.Some?
  }

  /** Every spelling of a number listed for `normalize_israeli_phone` finds
      the same customer. */
  lemma LookupAcceptsEverySpelling(rows: seq<Customer>, d: string)
    requires |d| == 9 && AllDigits(d)
    ensures var c := CustomerByPhone(rows, "+972" + d);
            CustomerByPhone(rows, "0" + d) == c
            && CustomerByPhone(rows, Grouped("0", d, "-")) == c
            && CustomerByPhone(rows, Grouped("0", d, " ")) == c
            && CustomerByPhone(rows, "972" + d) == c
            && CustomerByPhone(rows, Grouped("+972-", d, "-")) == c
  {
    NormalizeDocumentedSpellings(d);
  }

  /** `create_customer`'s checks: the phone normalises, the stripped name
      has at least two characters, the email holds `@`. */
  predicate ValidNewCustomer(name: string, phone: string, email: string) {
    NormalizeIsraeliPhone(phone).Some? && name != [] && |Strip(name)| >= 2 && email != [] && '@' in email
  }

  /** Phones are canonical and distinct; ids are distinct and below the
      next one to hand out. */
  ghost predicate RowsValid(rows: seq<Customer>, nextId: nat) {
    (forall k :: 0 <= k < |rows| ==> rows[k].id < nextId && IsE164Israeli(rows[k].phone))
    && (forall i, j :: 0 <= i < j < |rows| ==> rows[i].id != rows[j].id && rows[i].phone != rows[j].phone)
  }

  /** The update `update_customer` makes: the fields given, and
      `updated_at`, on the row with that id. */
  function WithFields(rows: seq<Customer>, id: nat, name: Option<string>, email: Option<string>, now: int)
    : seq<Customer>
  {
    seq(|rows|, k requires 0 <= k < |rows| =>
      if rows[k].id != id then rows[k]
      else rows[k].(name := if name.Some? then name.value else rows[k].name,
                    email := if email.Some? then email.value else rows[k].email,
                    updatedAt := now))
  }

  /** The row with the given id. */
  function FindById(rows: seq<Customer>, id: nat): (r: Option<Customer>)
    ensures r.Some? ==> r.value in rows && r.value.id == id
    ensures r.None? ==> forall k :: 0 <= k < |rows| ==> rows[k].id != id
    decreases |rows|
  {
    if rows == [] then None
    else if rows[0].id == id then Some(rows[0])
    else
      var r := FindById(rows[1..], id);
      assert r.None? ==> forall k :: 0 <= k < |rows| ==> rows[k].id != id by {
        if r.None? {
          forall k | 0 <= k < |rows| ensures rows[k].id != id {
            if k > 0 { assert rows[k] == rows[1..][k - 1]; }
          }
        }
      }
      assert r.Some? ==> r.value in rows by {
        if r.Some? { assert r.value in rows[1..]; }
      }
      r
  }

  /** The update keeps every phone, and so every phone lookup's key. */
  lemma WithFieldsKeepsPhones(rows: seq<Customer>, id: nat, name: Option<string>, email: Option<string>,
                              now: int, nextId: nat)
    requires RowsValid(rows, nextId)
    ensures var after := WithFields(rows, id, name, email, now);
            |after| == |rows| && RowsValid(after, nextId)
            && forall k :: 0 <= k < |rows| ==> after[k].phone == rows[k].phone && after[k].id == rows[k].id
  {
  }

  /** `search_customers`' guard: a term shorter than two characters once
      stripped finds nothing. */
  function SearchTerm(term: string): (r: Option<string>)
    ensures r.None? <==> term == [] || |Strip(term)| < 2
    ensures r.Some? ==> r.value == Strip(term) && |r.value| >= 2
  {
    if term == [] || |Strip(term)| < 2 then None else Some(Strip(term))
  }

  /** The customers table. */
  class CustomerTable {
    var rows: seq<Customer>
    var nextId: nat

    ghost predicate Valid()
      reads this
    {
      RowsValid(rows, nextId)
    }

    constructor()
      ensures Valid() && rows == []
    {
      rows := [];
      nextId := 0;
    }

    /** `create_customer`: an invalid phone, name or email inserts nothing
        and gives `None`; an existing customer with the same canonical
        phone is returned as it is; otherwise one row is added with the
        canonical phone, the stripped name and the stripped, lower-cased
        email, and afterwards a lookup by the given phone finds it. */
    method Create(name: string, phone: string, email: string, now: int) returns (r: Option<Customer>)
      requires Valid()
      modifies this
      ensures Valid()
      ensures !ValidNewCustomer(name, phone, email) ==> r.None? && rows == old(rows)
      ensures ValidNewCustomer(name, phone, email) && CustomerByPhone(old(rows), phone).Some? ==>
                r == CustomerByPhone(old(rows), phone) && rows == old(rows)
      ensures ValidNewCustomer(name, phone, email) && CustomerByPhone(old(rows), phone).None? ==>
                r == Some(Customer(old(nextId), Strip(name), NormalizeIsraeliPhone(phone).value,
                                   Lower(Strip(email)), now))
                && rows == old(rows) + [r.value]
      ensures r.Some? ==> CustomerByPhone(rows, phone) == r
    {
      // The three checks, each of which answers `None`.
      if !ValidNewCustomer(name, phone, email) {
        return None;
      }
      var p := NormalizeIsraeliPhone(phone).value;
      CustomerByPhoneIs(rows, phone, p);
      var existing := FindByPhone(rows, p);
      if existing.Some? {
        return existing;
      }
      var c := Customer(nextId, Strip(name), p, Lower(Strip(email)), now);
      NewPhoneFoundLast(rows, c);
      AppendKeepsValid(rows, nextId, c);
      rows := rows + [c];
      nextId := nextId + 1;
      CustomerByPhoneIs(rows, phone, p);
      r := Some(c);
    }

    /** `update_customer`: nothing happens without an id or without a
        valid field (a name of two or more characters once stripped, an
        email holding `@`); otherwise the valid fields and `updated_at` of
        that row change, the phone never does, and the updated row is
        returned (`None` when no row has the id). */
    method Update(id: Option<nat>, name: string, email: string, now: int) returns (r: Option<Customer>)
      requires Valid()
      modifies this
      ensures Valid()
      ensures var newName := if name != [] && |Strip(name)| >= 2 then Some(Strip(name)) else None;
              var newEmail := if email != [] && '@' in email then Some(Lower(Strip(email))) else None;
              if id.None? || (newName.None? && newEmail.None?) then r.None? && rows == old(rows)
              else rows == WithFields(old(rows), id.value, newName, newEmail, now)
                   && r == FindById(rows, id.value)
      ensures |rows| == |old(rows)| && forall k :: 0 <= k < |rows| ==> rows[k].phone == old(rows)[k].phone
    {
      if id.None? {
        return None;
      }
      var newName: Option<string> := None;
      var newEmail: Option<string> := None;
      if name != [] && |Strip(name)| >= 2 {
        newName := Some(Strip(name));
      }
      if email != [] && '@' in email {
        newEmail := Some(Lower(Strip(email)));
      }
      if newName.None? && newEmail.None? {
        return None;
      }
      WithFieldsKeepsPhones(rows, id.value, newName, newEmail, now, nextId);
      rows := WithFields(rows, id.value, newName, newEmail, now);
      r := FindById(rows, id.value);
    }
  }

  lemma AppendKeepsValid(rows: seq<Customer>, nextId: nat, c: Customer)
    requires RowsValid(rows, nextId) && c.id == nextId && IsE164Israeli(c.phone)
    requires forall k :: 0 <= k < |rows| ==> rows[k].phone != c.phone
    ensures RowsValid(rows + [c], nextId + 1)
  {
    var after := rows + [c];
    forall i, j | 0 <= i < j < |after| ensures after[i].id != after[j].id && after[i].phone != after[j].phone {
      assert after[i] == rows[i];
    }
  }

  /** A row whose phone is new is found by that phone once appended. */
  lemma {:induction false} NewPhoneFoundLast(rows: seq<Customer>, c: Customer)
    requires forall k :: 0 <= k < |rows| ==> rows[k].phone != c.phone
    ensures FindByPhone(rows + [c], c.phone) == Some(c)
    decreases |rows|
  {
    if rows != [] {
      assert (rows + [c])[1..] == rows[1..] + [c];
      NewPhoneFoundLast(rows[1..], c);
    }
  }
}
