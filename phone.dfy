/** Israeli phone-number normalisation: the canonical E.164 form `+972` plus
    nine digits used for storage and OTP, its display forms, the mobile-prefix
    check, and the per-channel variants used by the ActiveTrail SMS, Twilio and
    WhatsApp clients. */
module Phone {
  import opened Wrappers
  import opened Text

  /** `+972` followed by nine digits. */
  predicate IsE164Israeli(s: string) {
    |s| == 13 && s[..4] == "+972" && AllDigits(s[4..])
  }

  /** `re.sub(r'\D', '', s)`: the digits of `s`, in order. */
  function Digits(s: string): string {
    if s == [] then [] else (if IsDigit(s[0]) then [s[0]] else []) + Digits(s[1..])
  }

  /** `re.sub(r'[^\d+]', '', s)`: the digits and every `+` of `s`, in order. */
  function DigitsAndPlus(s: string): string {
    if s == [] then []
    else (if IsDigit(s[0]) || s[0] == '+' then [s[0]] else []) + DigitsAndPlus(s[1..])
  }

  /** `s.replace(" ", "").replace("-", "").replace("(", "").replace(")", "")`. */
  function WithoutSeparators(s: string): string {
    if s == [] then []
    else (if s[0] in " -()" then [] else [s[0]]) + WithoutSeparators(s[1..])
  }

  /** `s[1:] if s.startswith('+') else s`. */
  function DropLeadingPlus(s: string): (r: string)
    ensures r == s || (s != [] && s[0] == '+' && r == s[1..])
  {
    if StartsWith(s, "+") then s[1..] else s
  }

  /** The case analysis of `normalize_israeli_phone` on the cleaned text:
      `972` and twelve characters, `0` and ten, or `5` and nine. */
  function CanonicalFromClean(clean: string): (r: Option<string>)
    ensures r.Some? ==> |clean| >= 9 && r.value == "+972" + clean[|clean| - 9..]
  {
    if StartsWith(clean, "972") then
      (if |clean| == 12 then Some("+" + clean) else None)
    else if StartsWith(clean, "0") && |clean| == 10 then Some("+972" + clean[1..])
    else if StartsWith(clean, "5") && |clean| == 9 then Some("+972" + clean)
    else None
  }

  /** `normalize_israeli_phone` exactly as written: its filter keeps every
      `+`, not only a leading one, and then drops a single leading `+`. */
  function NormalizeIsraeliPhoneAsWritten(phone: string): (r: Option<string>)
    ensures phone == [] ==> r == None
    ensures r.Some? ==> |r.value| == 13 && r.value[..4] == "+972"
  {
    if phone == [] then None
    else CanonicalFromClean(DropLeadingPlus(DigitsAndPlus(phone)))
  }

  /** `normalize_israeli_phone` as its own comment describes it: every
      non-digit, a leading `+` included, is removed, so the result is `+972`
      and nine digits, the last nine digits of the input. */
  function NormalizeIsraeliPhone(phone: string): (r: Option<string>)
    ensures phone == [] ==> r == None
    ensures r.Some? ==> IsE164Israeli(r.value)
    ensures r.Some? ==> |Digits(phone)| >= 9 && r.value[4..] == Digits(phone)[|Digits(phone)| - 9..]
  {
    DigitsAreDigits(phone);
    if phone == [] then None else CanonicalFromClean(Digits(phone))
  }

  /** `format_phone_display`: `+972-XX-XXX-XXXX`, or the input unchanged. */
  function FormatPhoneDisplay(phone: string): (r: string)
    ensures NormalizeIsraeliPhone(phone).None? ==> r == phone
    ensures NormalizeIsraeliPhone(phone).Some? ==>
      |r| == 16 && r[..5] == "+972-" && r[7] == '-' && r[11] == '-'
  {
    match NormalizeIsraeliPhone(phone)
    case None => phone
    case Some(n) =>
      var d := n[4..];
      if |d| == 9 then GroupedShape("+972-", d, "-"); Grouped("+972-", d, "-") else n
  }

  /** `format_phone_local`: `0XX-XXX-XXXX`, or the input unchanged. */
  function FormatPhoneLocal(phone: string): (r: string)
    ensures NormalizeIsraeliPhone(phone).None? ==> r == phone
    ensures NormalizeIsraeliPhone(phone).Some? ==>
      |r| == 12 && r[0] == '0' && r[3] == '-' && r[7] == '-'
  {
    match NormalizeIsraeliPhone(phone)
    case None => phone
    case Some(n) =>
      var d := n[4..];
      if |d| == 9 then GroupedShape("0", d, "-"); Grouped("0", d, "-") else n
  }

  const MobilePrefixes: set<string> := {"50", "51", "52", "53", "54", "55", "58"}

  /** `is_valid_israeli_phone`. */
  function IsValidIsraeliPhone(phone: string): bool {
    match NormalizeIsraeliPhone(phone)
    case None => false
    case Some(n) => n[4..6] in MobilePrefixes
  }

  /** `s.lstrip('+')`. */
  function LStripPlus(s: string): (r: string)
    ensures r == [] || r[0] != '+'
    ensures |r| <= |s| && r == s[|s| - |r|..]
  {
    if s != [] && s[0] == '+' then LStripPlus(s[1..]) else s
  }

  /** `_to_activetrail_phone` of sms_service.py. */
  function ToActiveTrailPhone(phone: string): Option<string> {
    match NormalizeIsraeliPhone(phone)
    case None => None
    case Some(n) => Some(LStripPlus(n))
  }

  /** The channel normalisers' cleaning: separators removed, one leading `+` dropped. */
  function ChannelClean(phone: string): string {
    DropLeadingPlus(WithoutSeparators(phone))
  }

  /** `format_phone_for_whatsapp` of whatsapp_service.py, and the identical
      `normalize_phone_for_whatsapp` of whatsapp_otp.py and whatsapp_otp_db.py. */
  function WhatsAppPhone(phone: string): (r: Option<string>)
    ensures r.Some? ==> |r.value| == 12 && r.value[..3] == "972"
  {
    if phone == [] then None
    else
      var clean := ChannelClean(phone);
      if StartsWith(clean, "972") then (if |clean| == 12 then Some(clean) else None)
      else if StartsWith(clean, "0") && |clean| == 10 then Some("972" + clean[1..])
      else None
  }

  /** `normalize_phone_for_sms` of twilio_sms_service.py. */
  function SmsPhone(phone: string): (r: Option<string>)
    ensures r.Some? ==> |r.value| == 13 && r.value[..4] == "+972"
  {
    if phone == [] then None
    else
      var clean := ChannelClean(phone);
      if StartsWith(clean, "972") then (if |clean| == 12 then Some("+" + clean) else None)
      else if StartsWith(clean, "0") && |clean| == 10 then Some("+972" + clean[1..])
      else None
  }

  // ---------------------------------------------------------------------
  // The filters

  lemma {:induction false} DigitsAreDigits(s: string)
    ensures AllDigits(Digits(s))
    decreases |s|
  {
    if s != [] {
      DigitsAreDigits(s[1..]);
      var h: string := if IsDigit(s[0]) then [s[0]] else [];
      assert Digits(s) == h + Digits(s[1..]);
    }
  }

  lemma {:induction false} DigitsAppend(a: string, b: string)
    ensures Digits(a + b) == Digits(a) + Digits(b)
    decreases |a|
  {
    if a == [] {
      assert a + b == b;
    } else {
      var ab := a + b;
      assert ab[0] == a[0] && ab[1..] == a[1..] + b;
      DigitsAppend(a[1..], b);
      var h: string := if IsDigit(a[0]) then [a[0]] else [];
      assert Digits(ab) == h + Digits(ab[1..]);
      assert Digits(a) == h + Digits(a[1..]);
    }
  }

  lemma {:induction false} DigitsAndPlusAppend(a: string, b: string)
    ensures DigitsAndPlus(a + b) == DigitsAndPlus(a) + DigitsAndPlus(b)
    decreases |a|
  {
    if a == [] {
      assert a + b == b;
    } else {
      var ab := a + b;
      assert ab[0] == a[0] && ab[1..] == a[1..] + b;
      DigitsAndPlusAppend(a[1..], b);
      var h: string := if IsDigit(a[0]) || a[0] == '+' then [a[0]] else [];
      assert DigitsAndPlus(ab) == h + DigitsAndPlus(ab[1..]);
      assert DigitsAndPlus(a) == h + DigitsAndPlus(a[1..]);
    }
  }

  lemma {:induction false} WithoutSeparatorsAppend(a: string, b: string)
    ensures WithoutSeparators(a + b) == WithoutSeparators(a) + WithoutSeparators(b)
    decreases |a|
  {
    if a == [] {
      assert a + b == b;
    } else {
      var ab := a + b;
      assert ab[0] == a[0] && ab[1..] == a[1..] + b;
      WithoutSeparatorsAppend(a[1..], b);
      var h: string := if a[0] in " -()" then [] else [a[0]];
      assert WithoutSeparators(ab) == h + WithoutSeparators(ab[1..]);
      assert WithoutSeparators(a) == h + WithoutSeparators(a[1..]);
    }
  }

  lemma FiltersAppend(a: string, b: string)
    ensures Digits(a + b) == Digits(a) + Digits(b)
    ensures DigitsAndPlus(a + b) == DigitsAndPlus(a) + DigitsAndPlus(b)
    ensures WithoutSeparators(a + b) == WithoutSeparators(a) + WithoutSeparators(b)
  {
    DigitsAppend(a, b);
    DigitsAndPlusAppend(a, b);
    WithoutSeparatorsAppend(a, b);
  }

  lemma {:induction false} FiltersKeepDigits(n: string)
    requires AllDigits(n)
    ensures Digits(n) == n && DigitsAndPlus(n) == n && WithoutSeparators(n) == n
    decreases |n|
  {
    if n != [] {
      assert IsDigit(n[0]);
      assert AllDigits(n[1..]) by {
        forall i | 0 <= i < |n[1..]| ensures IsDigit(n[1..][i]) {
          assert n[1..][i] == n[i + 1];
        }
      }
      FiltersKeepDigits(n[1..]);
      assert [n[0]] + n[1..] == n;
    }
  }

  lemma {:induction false} FiltersAgreeWithoutPlus(s: string)
    requires '+' !in s
    ensures DigitsAndPlus(s) == Digits(s)
    decreases |s|
  {
    if s != [] {
      assert s[0] != '+';
      assert '+' !in s[1..] by {
        forall i | 0 <= i < |s[1..]| ensures s[1..][i] != '+' {
          assert s[1..][i] == s[i + 1];
        }
      }
      FiltersAgreeWithoutPlus(s[1..]);
    }
  }

  lemma SliceDigits(d: string, i: int, j: int)
    requires AllDigits(d) && 0 <= i <= j <= |d|
    ensures AllDigits(d[i..j])
  {
    assert forall k :: 0 <= k < j - i ==> d[i..j][k] == d[i + k];
  }

  // ---------------------------------------------------------------------
  // The three accepted shapes of the cleaned number

  lemma CanonicalCountryCode(c: string)
    requires |c| == 12 && c[0] == '9' && c[1] == '7' && c[2] == '2'
    ensures CanonicalFromClean(c) == Some("+" + c)
  {
    assert StartsWith(c, "972");
  }

  lemma CanonicalTrunkZero(c: string)
    requires |c| == 10 && c[0] == '0'
    ensures CanonicalFromClean(c) == Some("+972" + c[1..])
  {
    assert !StartsWith(c, "972") by { assert c[0] != "972"[0]; }
    assert StartsWith(c, "0");
  }

  lemma CanonicalBareMobile(c: string)
    requires |c| == 9 && c[0] == '5'
    ensures CanonicalFromClean(c) == Some("+972" + c)
  {
    assert !StartsWith(c, "972") by { assert c[0] != "972"[0]; }
    assert !StartsWith(c, "0") by { assert c[0] != "0"[0]; }
    assert StartsWith(c, "5");
  }

  // ---------------------------------------------------------------------
  // phone_utils.py

  lemma NormalizeTrunkForm(n: string)
    requires |n| == 9 && AllDigits(n)
    ensures NormalizeIsraeliPhone("0" + n) == Some("+972" + n)
  {
    FiltersKeepDigits(n);
    DigitsAppend("0", n);
    var c := "0" + n;
    assert Digits(c) == c;
    CanonicalTrunkZero(c);
    assert c[1..] == n;
  }

  lemma NormalizeCountryForm(n: string)
    requires |n| == 9 && AllDigits(n)
    ensures NormalizeIsraeliPhone("972" + n) == Some("+972" + n)
    ensures NormalizeIsraeliPhone("+972" + n) == Some("+972" + n)
  {
    FiltersKeepDigits(n);
    DigitsAppend("972", n);
    DigitsAppend("+972", n);
    var c := "972" + n;
    assert Digits(c) == c;
    assert Digits("+972") == "972";
    assert Digits("+972" + n) == c;
    CanonicalCountryCode(c);
    assert "+" + c == "+972" + n;
  }

  lemma NormalizeBareForm(n: string)
    requires |n| == 9 && AllDigits(n)
    ensures NormalizeIsraeliPhone(n).Some? <==> n[0] == '5'
    ensures n[0] == '5' ==> NormalizeIsraeliPhone(n) == Some("+972" + n)
  {
    FiltersKeepDigits(n);
    if n[0] == '5' {
      CanonicalBareMobile(n);
    } else {
      assert !StartsWith(n, "5") by { assert n[0] != "5"[0]; }
    }
  }

  /** Every accepted spelling of one nine-digit national number normalises to
      the same canonical number; the bare nine-digit form must start with 5. */
  lemma NormalizeAcceptedForms(n: string)
    requires |n| == 9 && AllDigits(n)
    ensures NormalizeIsraeliPhone("0" + n) == Some("+972" + n)
    ensures NormalizeIsraeliPhone("972" + n) == Some("+972" + n)
    ensures NormalizeIsraeliPhone("+972" + n) == Some("+972" + n)
    ensures NormalizeIsraeliPhone(n).Some? <==> n[0] == '5'
    ensures n[0] == '5' ==> NormalizeIsraeliPhone(n) == Some("+972" + n)
  {
    NormalizeTrunkForm(n);
    NormalizeCountryForm(n);
    NormalizeBareForm(n);
  }

  /** Normalising a normalised number returns it unchanged. */
  lemma NormalizeIdempotent(phone: string)
    requires NormalizeIsraeliPhone(phone).Some?
    ensures NormalizeIsraeliPhone(NormalizeIsraeliPhone(phone).value) == NormalizeIsraeliPhone(phone)
  {
    var r := NormalizeIsraeliPhone(phone).value;
    var n := r[4..];
    assert r == "+972" + n;
    NormalizeCountryForm(n);
  }

  /** Normalisation looks only at the digits of a non-empty input. */
  lemma NormalizeDependsOnlyOnDigits(x: string, y: string)
    requires x != [] && y != [] && Digits(x) == Digits(y)
    ensures NormalizeIsraeliPhone(x) == NormalizeIsraeliPhone(y)
  {
  }

  /** `lead + d[..2] + sep + d[2..5] + sep + d[5..]`: the grouped spellings
      `050-123-4567`, `050 123 4567`, `+972-50-123-4567`. */
  function Grouped(lead: string, d: string, sep: string): string
    requires |d| == 9
  {
    lead + d[..2] + sep + d[2..5] + sep + d[5..]
  }

  /** Where the lead, the area code and the two separators sit. */
  lemma GroupedShape(lead: string, d: string, sep: string)
    requires |d| == 9 && |sep| == 1
    ensures var g := Grouped(lead, d, sep);
            var k := |lead|;
            |g| == k + 11 && g[..k] == lead && g[k..k + 2] == d[..2]
            && g[k + 2] == sep[0] && g[k + 6] == sep[0]
  {
    var g := Grouped(lead, d, sep);
    var k := |lead|;
    assert g == lead + (d[..2] + (sep + (d[2..5] + (sep + d[5..]))));
  }

  lemma DigitsOfDigitPiece(x: string, piece: string)
    requires AllDigits(piece)
    ensures Digits(x + piece) == Digits(x) + piece
  {
    FiltersKeepDigits(piece);
    DigitsAppend(x, piece);
  }

  lemma DigitsOfSeparator(x: string, sep: string)
    requires sep == "-" || sep == " "
    ensures Digits(x + sep) == Digits(x)
    ensures WithoutSeparators(x + sep) == WithoutSeparators(x)
  {
    DigitsAppend(x, sep);
    WithoutSeparatorsAppend(x, sep);
    assert Digits(sep) == [] && WithoutSeparators(sep) == [];
  }

  lemma WithoutSeparatorsOfDigitPiece(x: string, piece: string)
    requires AllDigits(piece)
    ensures WithoutSeparators(x + piece) == WithoutSeparators(x) + piece
  {
    FiltersKeepDigits(piece);
    WithoutSeparatorsAppend(x, piece);
  }

  lemma DigitsOfGrouped(lead: string, d: string, sep: string)
    requires |d| == 9 && AllDigits(d) && (sep == "-" || sep == " ")
    ensures Digits(Grouped(lead, d, sep)) == Digits(lead) + d
  {
    var a, b, c := d[..2], d[2..5], d[5..];
    SliceDigits(d, 0, 2);
    SliceDigits(d, 2, 5);
    SliceDigits(d, 5, 9);
    var x1 := lead + a;
    var x2 := x1 + sep;
    var x3 := x2 + b;
    var x4 := x3 + sep;
    assert x4 + c == Grouped(lead, d, sep);
    DigitsOfDigitPiece(lead, a);
    DigitsOfSeparator(x1, sep);
    DigitsOfDigitPiece(x2, b);
    DigitsOfSeparator(x3, sep);
    DigitsOfDigitPiece(x4, c);
    assert Digits(x3) == Digits(lead) + a + b;
    assert Digits(x4 + c) == Digits(lead) + a + b + c;
    assert a + b + c == d;
  }

  lemma WithoutSeparatorsOfGrouped(lead: string, d: string, sep: string)
    requires |d| == 9 && AllDigits(d) && (sep == "-" || sep == " ")
    ensures WithoutSeparators(Grouped(lead, d, sep)) == WithoutSeparators(lead) + d
  {
    var a, b, c := d[..2], d[2..5], d[5..];
    SliceDigits(d, 0, 2);
    SliceDigits(d, 2, 5);
    SliceDigits(d, 5, 9);
    var x1 := lead + a;
    var x2 := x1 + sep;
    var x3 := x2 + b;
    var x4 := x3 + sep;
    assert x4 + c == Grouped(lead, d, sep);
    WithoutSeparatorsOfDigitPiece(lead, a);
    DigitsOfSeparator(x1, sep);
    WithoutSeparatorsOfDigitPiece(x2, b);
    DigitsOfSeparator(x3, sep);
    WithoutSeparatorsOfDigitPiece(x4, c);
    assert WithoutSeparators(x3) == WithoutSeparators(lead) + a + b;
    assert WithoutSeparators(x4 + c) == WithoutSeparators(lead) + a + b + c;
    assert a + b + c == d;
  }

  /** The spellings listed in the docstring of `normalize_israeli_phone`
      (0501234567, 050-123-4567, 050 123 4567, 972501234567, +972501234567,
      +972-50-123-4567), for every nine-digit national number. */
  lemma NormalizeDocumentedSpellings(d: string)
    requires |d| == 9 && AllDigits(d)
    ensures NormalizeIsraeliPhone("0" + d) == Some("+972" + d)
    ensures NormalizeIsraeliPhone(Grouped("0", d, "-")) == Some("+972" + d)
    ensures NormalizeIsraeliPhone(Grouped("0", d, " ")) == Some("+972" + d)
    ensures NormalizeIsraeliPhone("972" + d) == Some("+972" + d)
    ensures NormalizeIsraeliPhone("+972" + d) == Some("+972" + d)
    ensures NormalizeIsraeliPhone(Grouped("+972-", d, "-")) == Some("+972" + d)
  {
    NormalizeTrunkForm(d);
    NormalizeCountryForm(d);
    NormalizeGroupedLocal(d, "-");
    NormalizeGroupedLocal(d, " ");
    NormalizeGroupedInternational(d);
  }

  lemma NormalizeGroupedLocal(d: string, sep: string)
    requires |d| == 9 && AllDigits(d) && (sep == "-" || sep == " ")
    ensures NormalizeIsraeliPhone(Grouped("0", d, sep)) == Some("+972" + d)
  {
    NormalizeTrunkForm(d);
    FiltersKeepDigits(d);
    DigitsAppend("0", d);
    assert Digits("0") == "0";
    DigitsOfGrouped("0", d, sep);
    NormalizeDependsOnlyOnDigits(Grouped("0", d, sep), "0" + d);
  }

  lemma NormalizeGroupedInternational(d: string)
    requires |d| == 9 && AllDigits(d)
    ensures NormalizeIsraeliPhone(Grouped("+972-", d, "-")) == Some("+972" + d)
  {
    NormalizeCountryForm(d);
    FiltersKeepDigits(d);
    DigitsAppend("972", d);
    InternationalLeadDigits();
    DigitsOfGrouped("+972-", d, "-");
    var g := Grouped("+972-", d, "-");
    assert g != [] && Digits(g) == "972" + d;
    NormalizeDependsOnlyOnDigits(g, "972" + d);
  }

  lemma InternationalLeadDigits()
    ensures Digits("+972-") == "972"
  {
    var s := "+972-";
    assert s[1..] == "972-" && s[0] == '+';
    assert Digits("-") == [];
    assert "972-"[1..] == "72-" && "72-"[1..] == "2-" && "2-"[1..] == "-";
    assert Digits("2-") == "2";
    assert Digits("72-") == "72";
    assert Digits("972-") == "972";
  }

  /** A number whose digits start with 972 but do not number twelve is rejected. */
  lemma NormalizeRejects972WrongLength(phone: string)
    requires StartsWith(Digits(phone), "972") && |Digits(phone)| != 12
    ensures NormalizeIsraeliPhone(phone) == None
  {
  }

  /** Both display forms of a valid number normalise back to it; an invalid
      input is returned unchanged, and so '' stays ''. */
  lemma DisplayFormsRoundTrip(phone: string)
    ensures NormalizeIsraeliPhone(FormatPhoneDisplay(phone)) == NormalizeIsraeliPhone(phone)
    ensures NormalizeIsraeliPhone(FormatPhoneLocal(phone)) == NormalizeIsraeliPhone(phone)
    ensures phone == [] ==> FormatPhoneDisplay(phone) == [] && FormatPhoneLocal(phone) == []
  {
    if NormalizeIsraeliPhone(phone).Some? {
      var n := NormalizeIsraeliPhone(phone).value;
      var d := n[4..];
      assert n == "+972" + d;
      assert FormatPhoneDisplay(phone) == Grouped("+972-", d, "-");
      assert FormatPhoneLocal(phone) == Grouped("0", d, "-");
      NormalizeDocumentedSpellings(d);
    }
  }

  /** A number is a valid mobile number iff it normalises and its local form
      starts with 050, 051, 052, 053, 054, 055 or 058. */
  lemma ValidIffMobilePrefix(phone: string)
    ensures IsValidIsraeliPhone(phone) <==>
      NormalizeIsraeliPhone(phone).Some? && FormatPhoneLocal(phone)[1..3] in MobilePrefixes
  {
    if NormalizeIsraeliPhone(phone).Some? {
      var n := NormalizeIsraeliPhone(phone).value;
      var d := n[4..];
      assert FormatPhoneLocal(phone)[1..3] == d[..2] == n[4..6];
    }
  }

  /** Validity does not depend on which spelling of the number is given. */
  lemma ValidityInvariantUnderFormatting(phone: string)
    ensures IsValidIsraeliPhone(FormatPhoneLocal(phone)) == IsValidIsraeliPhone(phone)
    ensures IsValidIsraeliPhone(FormatPhoneDisplay(phone)) == IsValidIsraeliPhone(phone)
  {
    DisplayFormsRoundTrip(phone);
  }

  /** `0` and nine digits is a valid mobile number iff it starts 05 and its
      third digit is 0, 1, 2, 3, 4, 5 or 8. */
  lemma ValidLocalNumber(d: string)
    requires |d| == 9 && AllDigits(d)
    ensures IsValidIsraeliPhone("0" + d) <==>
      d[0] == '5' && (d[1] == '0' || d[1] == '1' || d[1] == '2' || d[1] == '3'
                      || d[1] == '4' || d[1] == '5' || d[1] == '8')
  {
    NormalizeTrunkForm(d);
    var p := ("+972" + d)[4..6];
    assert p == [d[0], d[1]];
    assert MobilePrefixes == {['5', '0'], ['5', '1'], ['5', '2'], ['5', '3'], ['5', '4'], ['5', '5'], ['5', '8']};
  }

  // ---------------------------------------------------------------------
  // The '+' kept inside the number

  lemma InnerPlusAsWritten(a: string, b: string)
    requires |a| == 4 && |b| == 4 && AllDigits(a) && AllDigits(b)
    ensures NormalizeIsraeliPhoneAsWritten("0" + a + "+" + b) == Some("+972" + a + "+" + b)
  {
    var x := "0" + a + "+" + b;
    InnerPlusKept(a, b);
    assert DropLeadingPlus(x) == x;
    CanonicalTrunkZero(x);
    assert x[1..] == a + "+" + b;
    assert "+972" + (a + "+" + b) == "+972" + a + "+" + b;
  }

  lemma InnerPlusKept(a: string, b: string)
    requires AllDigits(a) && AllDigits(b)
    ensures DigitsAndPlus("0" + a + "+" + b) == "0" + a + "+" + b
  {
    FiltersKeepDigits(a);
    FiltersKeepDigits(b);
    DigitsAndPlusAppend("0" + a + "+", b);
    DigitsAndPlusAppend("0" + a, "+");
    DigitsAndPlusAppend("0", a);
    assert DigitsAndPlus("0") == "0" && DigitsAndPlus("+") == "+";
  }

  lemma InnerPlusCorrected(a: string, b: string)
    requires |a| == 4 && |b| == 4 && AllDigits(a) && AllDigits(b)
    ensures NormalizeIsraeliPhone("0" + a + "+" + b) == None
  {
    var x := "0" + a + "+" + b;
    FiltersKeepDigits(a);
    FiltersKeepDigits(b);
    DigitsAppend("0" + a + "+", b);
    DigitsAppend("0" + a, "+");
    DigitsAppend("0", a);
    assert Digits("0") == "0" && Digits("+") == [];
    var dg := "0" + a + b;
    assert Digits(x) == dg;
    assert !StartsWith(dg, "972") by { assert dg[0] != "972"[0]; }
    assert !StartsWith(dg, "5") by { assert dg[0] != "5"[0]; }
  }

  /** As written, a `+` inside the number survives the filter, so the
      supposedly E.164 result is not all digits: `05012+3456` gives
      `+9725012+3456`. The corrected normaliser rejects such an input, whose
      digits number nine and start with 0. */
  lemma AsWrittenKeepsInnerPlus(a: string, b: string)
    requires |a| == 4 && |b| == 4 && AllDigits(a) && AllDigits(b)
    ensures NormalizeIsraeliPhoneAsWritten("0" + a + "+" + b) == Some("+972" + a + "+" + b)
    ensures !IsE164Israeli("+972" + a + "+" + b)
    ensures NormalizeIsraeliPhone("0" + a + "+" + b) == None
  {
    InnerPlusAsWritten(a, b);
    InnerPlusCorrected(a, b);
    var r := "+972" + a + "+" + b;
    assert r[4..][4] == '+';
  }

  lemma FiltersOfCons(c: char, rest: string)
    requires '+' !in rest
    ensures var k := Digits(rest);
      && DigitsAndPlus([c] + rest) == (if IsDigit(c) || c == '+' then [c] else []) + k
      && Digits([c] + rest) == (if IsDigit(c) then [c] else []) + k
      && (k == [] || IsDigit(k[0]))
  {
    var x := [c] + rest;
    assert x[0] == c && x[1..] == rest;
    FiltersAgreeWithoutPlus(rest);
    DigitsAreDigits(rest);
  }

  /** Where a `+` can only be the first character, the corrected normaliser
      and the as-written one agree. */
  lemma AsWrittenAgreesWithoutInnerPlus(phone: string)
    requires forall i :: 0 < i < |phone| ==> phone[i] != '+'
    ensures NormalizeIsraeliPhoneAsWritten(phone) == NormalizeIsraeliPhone(phone)
  {
    if phone != [] {
      var rest := phone[1..];
      assert '+' !in rest by {
        forall i | 0 <= i < |rest| ensures rest[i] != '+' {
          assert rest[i] == phone[i + 1];
        }
      }
      assert phone == [phone[0]] + rest;
      FiltersOfCons(phone[0], rest);
      var k := Digits(rest);
      if phone[0] == '+' {
        assert DigitsAndPlus(phone) == ['+'] + k;
        assert (['+'] + k)[1..] == k;
        assert DropLeadingPlus(DigitsAndPlus(phone)) == k;
        assert Digits(phone) == k;
      } else {
        assert DigitsAndPlus(phone) == Digits(phone);
        assert Digits(phone) == [] || IsDigit(Digits(phone)[0]);
        assert DropLeadingPlus(Digits(phone)) == Digits(phone);
      }
    }
  }

  // ---------------------------------------------------------------------
  // sms_service.py

  /** `_to_activetrail_phone(p)` is the canonical number without its `+`. */
  lemma ActiveTrailIsCanonicalWithoutPlus(phone: string)
    ensures ToActiveTrailPhone(phone).None? <==> NormalizeIsraeliPhone(phone).None?
    ensures ToActiveTrailPhone(phone).Some? ==>
      "+" + ToActiveTrailPhone(phone).value == NormalizeIsraeliPhone(phone).value
      && |ToActiveTrailPhone(phone).value| == 12
  {
    if NormalizeIsraeliPhone(phone).Some? {
      var n := NormalizeIsraeliPhone(phone).value;
      assert n[0] == '+' && n[1] == '9';
      assert n[1..][0] == '9';
      assert LStripPlus(n) == LStripPlus(n[1..]) == n[1..];
      assert "+" + n[1..] == n;
    }
  }

  // ---------------------------------------------------------------------
  // twilio_sms_service.py, whatsapp_service.py, whatsapp_otp.py, whatsapp_otp_db.py

  /** The Twilio SMS form is the WhatsApp form with a `+` in front. */
  lemma SmsIsPlusWhatsApp(phone: string)
    ensures SmsPhone(phone).None? <==> WhatsAppPhone(phone).None?
    ensures SmsPhone(phone).Some? ==> SmsPhone(phone).value == "+" + WhatsAppPhone(phone).value
  {
  }

  /** The channel normalisers look only at the input with its separators removed. */
  lemma WhatsAppDependsOnlyOnCleaned(x: string, y: string)
    requires x != [] && y != [] && WithoutSeparators(x) == WithoutSeparators(y)
    ensures WhatsAppPhone(x) == WhatsAppPhone(y)
  {
  }

  lemma WhatsAppTrunkForm(d: string)
    requires |d| == 9 && AllDigits(d)
    ensures WhatsAppPhone("0" + d) == Some("972" + d)
  {
    FiltersKeepDigits(d);
    WithoutSeparatorsAppend("0", d);
    var z := "0" + d;
    assert WithoutSeparators(z) == z;
    assert ChannelClean(z) == z;
    assert !StartsWith(z, "972") by { assert z[0] != "972"[0]; }
    assert StartsWith(z, "0");
    assert z[1..] == d;
  }

  lemma WhatsAppCountryForm(d: string)
    requires |d| == 9 && AllDigits(d)
    ensures WhatsAppPhone("972" + d) == Some("972" + d)
  {
    FiltersKeepDigits(d);
    WithoutSeparatorsAppend("972", d);
    var c := "972" + d;
    assert WithoutSeparators(c) == c;
    assert ChannelClean(c) == c;
    assert StartsWith(c, "972");
  }

  lemma WhatsAppPlusCountryForm(d: string)
    requires |d| == 9 && AllDigits(d)
    ensures WhatsAppPhone("+972" + d) == Some("972" + d)
  {
    var c := "972" + d;
    var x := "+972" + d;
    assert AllDigits(c) by {
      forall i | 0 <= i < |c| ensures IsDigit(c[i]) {
        if i >= 3 { assert c[i] == d[i - 3]; }
      }
    }
    FiltersKeepDigits(c);
    assert x == ['+'] + c && x[0] == '+' && x[1..] == c;
    assert WithoutSeparators(x) == [x[0]] + WithoutSeparators(x[1..]);
    assert WithoutSeparators(x) == x;
    assert ChannelClean(x) == c;
    assert StartsWith(c, "972");
  }

  lemma WhatsAppBareForm(d: string)
    requires |d| == 9 && AllDigits(d)
    ensures WhatsAppPhone(d) == None && SmsPhone(d) == None
  {
    FiltersKeepDigits(d);
    assert ChannelClean(d) == d;
  }

  /** The channel normalisers accept 0XXXXXXXXX and 972/+972 with nine more
      characters, and reject the bare nine-digit form that
      `normalize_israeli_phone` accepts when it starts with 5. */
  lemma WhatsAppAcceptedForms(d: string)
    requires |d| == 9 && AllDigits(d)
    ensures WhatsAppPhone("0" + d) == Some("972" + d)
    ensures WhatsAppPhone("972" + d) == Some("972" + d)
    ensures WhatsAppPhone("+972" + d) == Some("972" + d)
    ensures WhatsAppPhone(d) == None && SmsPhone(d) == None
    ensures d[0] == '5' ==> NormalizeIsraeliPhone(d).Some?
  {
    WhatsAppTrunkForm(d);
    WhatsAppCountryForm(d);
    WhatsAppPlusCountryForm(d);
    WhatsAppBareForm(d);
    NormalizeBareForm(d);
  }

  /** The spellings listed in the docstrings of the WhatsApp normalisers
      (0501234567, 050-1234567, 050 123 4567, +972501234567, 972501234567),
      for every nine-digit national number. */
  lemma WhatsAppDocumentedSpellings(d: string)
    requires |d| == 9 && AllDigits(d)
    ensures WhatsAppPhone("0" + d[..2] + "-" + d[2..]) == Some("972" + d)
    ensures WhatsAppPhone(Grouped("0", d, " ")) == Some("972" + d)
  {
    WhatsAppDashedForm(d);
    WhatsAppSpacedForm(d);
  }

  lemma WhatsAppSpacedForm(d: string)
    requires |d| == 9 && AllDigits(d)
    ensures WhatsAppPhone(Grouped("0", d, " ")) == Some("972" + d)
  {
    WhatsAppTrunkForm(d);
    WithoutSeparatorsOfGrouped("0", d, " ");
    assert WithoutSeparators("0") == "0";
    FiltersKeepDigits(d);
    WithoutSeparatorsAppend("0", d);
    WhatsAppDependsOnlyOnCleaned(Grouped("0", d, " "), "0" + d);
  }

  lemma WhatsAppDashedForm(d: string)
    requires |d| == 9 && AllDigits(d)
    ensures WhatsAppPhone("0" + d[..2] + "-" + d[2..]) == Some("972" + d)
  {
    WhatsAppTrunkForm(d);
    FiltersKeepDigits(d);
    WithoutSeparatorsAppend("0", d);
    SliceDigits(d, 0, 2);
    SliceDigits(d, 2, 9);
    var x1 := "0" + d[..2];
    WithoutSeparatorsOfDigitPiece("0", d[..2]);
    DigitsOfSeparator(x1, "-");
    WithoutSeparatorsOfDigitPiece(x1 + "-", d[2..]);
    assert WithoutSeparators("0") == "0";
    assert d[..2] + d[2..] == d;
    assert WithoutSeparators(x1 + "-" + d[2..]) == "0" + d;
    WhatsAppDependsOnlyOnCleaned(x1 + "-" + d[2..], "0" + d);
  }


  /** A 972 prefix with the wrong total length is rejected by both channel forms. */
  lemma WhatsAppRejects972WrongLength(phone: string)
    requires phone != [] && StartsWith(ChannelClean(phone), "972") && |ChannelClean(phone)| != 12
    ensures WhatsAppPhone(phone) == None && SmsPhone(phone) == None
  {
  }

  /** On digit strings the Twilio SMS normaliser agrees with the canonical
      one, except for the bare nine-digit form only the latter accepts. */
  lemma ChannelAgreesOnDigits(p: string)
    requires AllDigits(p) && !(|p| == 9 && p[0] == '5')
    ensures SmsPhone(p) == NormalizeIsraeliPhone(p)
  {
    FiltersKeepDigits(p);
    assert ChannelClean(p) == p;
  }
}
