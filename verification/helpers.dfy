/** The display and validation helpers of the web client (frontend/src/utils/helpers.js):
    12-hour time, currency in integer cents, initials, phone validation, status colours,
    age and the booked-slot check. */
module Helpers {
  import opened Wrappers
  import opened Seqs
  import opened Text
  import opened Clock
  import opened AppointmentModel

  // ---------------------------------------------------------------------------------------
  // formatTime

  /** The leading run of ASCII digits of `s`. */
  function LeadingDigits(s: string): (r: string)
    ensures AllDigits(r) && r <= s
    ensures |r| < |s| ==> !IsDigit(s[|r|])
  {
    if |s| == 0 || !IsDigit(s[0]) then [] else [s[0]] + LeadingDigits(s[1..])
  }

  /** A digit of base 16, either case. */
  predicate IsHexDigit(c: char) {
    IsDigit(c) || 'a' <= c <= 'f' || 'A' <= c <= 'F'
  }

  function HexValue(c: char): (d: nat)
    requires IsHexDigit(c)
    ensures d < 16
    ensures IsDigit(c) ==> d == DigitValue(c)
  {
    if IsDigit(c) then DigitValue(c)
    else if 'a' <= c <= 'f' then c as nat - 'a' as nat + 10
    else c as nat - 'A' as nat + 10
  }

  predicate AllHexDigits(s: string) {
    forall i :: 0 <= i < |s| ==> IsHexDigit(s[i])
  }

  /** The leading run of base-16 digits of `s`. */
  function LeadingHexDigits(s: string): (r: string)
    ensures AllHexDigits(r) && r <= s
    ensures |r| < |s| ==> !IsHexDigit(s[|r|])
  {
    if |s| == 0 || !IsHexDigit(s[0]) then [] else [s[0]] + LeadingHexDigits(s[1..])
  }

  /** Value of a string of base-16 digits. */
  function ParseHex(s: string): nat
    requires AllHexDigits(s)
  {
    if |s| == 0 then 0 else ParseHex(s[..|s| - 1]) * 16 + HexValue(s[|s| - 1])
  }

  /** Without a radix, `parseInt` reads a text starting "0x" or "0X" in base 16. */
  predicate HexPrefixed(s: string) {
    |s| >= 2 && s[0] == '0' && (s[1] == 'x' || s[1] == 'X')
  }

  /** `parseInt(s)` of a string without sign or leading blanks: the value of its leading
      digits, None (NaN) when there are none; after a "0x" prefix the digits are read in
      base 16. */
  function ParseIntPrefix(s: string): (r: Option<nat>)
    ensures AllDigits(s) && s != "" ==> r == Some(ParseDigits(s))
    ensures !HexPrefixed(s) ==> (r.Some? <==> |s| > 0 && IsDigit(s[0]))
    ensures !HexPrefixed(s) && r.Some? ==> r.value == ParseDigits(LeadingDigits(s))
    ensures HexPrefixed(s) ==> (r.Some? <==> |s| > 2 && IsHexDigit(s[2]))
    ensures HexPrefixed(s) && r.Some? ==> r.value == ParseHex(LeadingHexDigits(s[2..]))
  {
    if HexPrefixed(s) then
      var h := LeadingHexDigits(s[2..]);
      if h == [] then None else Some(ParseHex(h))
    else
      var d := LeadingDigits(s);
      assert AllDigits(s) ==> d == s;
      if d == [] then None else Some(ParseDigits(d))
  }

  /** "0x0C" reads as 12 in base 16, while "0x" and "0xg" have no digits and are NaN. */
  lemma HexHours()
    ensures ParseIntPrefix("0x0C") == Some(12)
    ensures ParseIntPrefix("0x") == None && ParseIntPrefix("0xg") == None
  {
    var h := "0C";
    assert "0x0C"[2..] == h;
    assert LeadingHexDigits(h[1..]) == "C";
    assert LeadingHexDigits(h) == h;
    assert h[..1] == "0" && "0"[..0] == [];
    assert ParseHex(h) == ParseHex("0") * 16 + 12;
    assert LeadingHexDigits("g") == [];
  }

  /** So a hexadecimal hour decides the meridiem: "0x0C:30" shows PM. */
  lemma HexHourAfternoon()
    ensures var r := FormatTime("0x0C:30"); r[|r| - 2..] == "PM"
  {
    var t := "0x0C:30";
    assert t[4] == ':' && ':' !in t[..4];
    assert TimeParts(t).0 == t[..4] == "0x0C";
    HexHours();
  }

  /** `hour % 12 || 12`: NaN and multiples of 12 show as 12. */
  function DisplayHour(hour: Option<nat>): (r: nat)
    ensures 1 <= r <= 12
    ensures hour.Some? ==> r % 12 == hour.value % 12
  {
    if hour.None? || hour.value % 12 == 0 then 12 else hour.value % 12
  }

  /** `hour >= 12 ? 'PM' : 'AM'`; NaN compares false. */
  function Meridiem(hour: Option<nat>): (r: string)
    ensures r == "PM" <==> hour.Some? && hour.value >= 12
    ensures r == "AM" || r == "PM"
  {
    if hour.Some? && hour.value >= 12 then "PM" else "AM"
  }

  /** `formatTime`: the hour before the first colon in 12-hour form, the text between the
      first and second colon verbatim ("undefined" when there is none), and AM or PM. */
  function FormatTime(time: string): (r: string)
    ensures |r| >= 4 && r[|r| - 3] == ' '
    ensures r[|r| - 2..] == "PM" <==>
      ParseIntPrefix(TimeParts(time).0).Some? && ParseIntPrefix(TimeParts(time).0).value >= 12
  {
    var (hs, ms) := TimeParts(time);
    var hour := ParseIntPrefix(hs);
    NatToString(DisplayHour(hour)) + ":" + (if ms.Some? then ms.value else "undefined")
      + " " + Meridiem(hour)
  }

  /** The 12-hour clock by its four cases: midnight hour as 12 AM, morning hours as they
      are, noon hour as 12 PM, afternoon hours less twelve. */
  function TwelveHourText(h: nat, m: string): string {
    if h == 0 then "12:" + m + " AM"
    else if h < 12 then NatToString(h) + ":" + m + " AM"
    else if h == 12 then "12:" + m + " PM"
    else NatToString(h - 12) + ":" + m + " PM"
  }

  /** On a well-formed "HH:MM", `formatTime` is the 12-hour clock text with the minutes kept
      verbatim, and it says PM exactly from noon on. */
  lemma FormatTimeOfClock(t: string)
    requires IsClock(t)
    ensures FormatTime(t) == TwelveHourText(ClockHour(t), t[3..])
    ensures FormatTime(t)[|FormatTime(t)| - 2..] == "PM" <==> ClockHour(t) >= 12
  {
    FormatTimeShape(t);
    TwelveHourPieces(ClockHour(t), t[3..]);
  }

  /** The pieces `formatTime` joins for a known hour spell out the four-case clock text. */
  lemma TwelveHourPieces(h: nat, m: string)
    requires h < 24
    ensures NatToString(DisplayHour(Some(h))) + ":" + m + " " + Meridiem(Some(h))
            == TwelveHourText(h, m)
  {
    var d := NatToString(DisplayHour(Some(h)));
    var suffix := Meridiem(Some(h));
    Assemble(d, m, suffix);
    var tail := if h >= 12 then " PM" else " AM";
    assert " " + suffix == tail;
    if h == 0 || h == 12 {
      assert d + ":" == "12:" by {
        assert DisplayHour(Some(h)) == 12;
      }
      assert TwelveHourText(h, m) == "12:" + m + tail;
    } else if h < 12 {
      assert DisplayHour(Some(h)) == h;
      assert TwelveHourText(h, m) == NatToString(h) + ":" + m + tail;
    } else {
      assert DisplayHour(Some(h)) == h - 12;
      assert TwelveHourText(h, m) == NatToString(h - 12) + ":" + m + tail;
    }
  }

  lemma Assemble(d: string, m: string, suffix: string)
    ensures d + ":" + m + " " + suffix == (d + ":") + m + (" " + suffix)
  {
  }

  /** The pieces `formatTime` assembles from a well-formed time. */
  lemma FormatTimeShape(t: string)
    requires IsClock(t)
    ensures ParseIntPrefix(TimeParts(t).0) == Some(ClockHour(t))
    ensures FormatTime(t) == NatToString(DisplayHour(Some(ClockHour(t)))) + ":" + t[3..] + " "
                             + Meridiem(Some(ClockHour(t)))
  {
    TimePartsOfClock(t);
  }

  /** Reads a "h:mm AM" / "h:mm PM" text back into minutes since midnight. */
  function TwelveHourMinutes(r: string): Option<nat> {
    if |r| < 7 then None
    else
      var n := |r|;
      var d, mm, suffix := r[..n - 6], r[n - 5..n - 3], r[n - 2..];
      if r[n - 6] != ':' || r[n - 3] != ' ' || !AllDigits(d) || !AllDigits(mm)
         || (suffix != "AM" && suffix != "PM") then None
      else
        Some(Hour24(ParseDigits(d), suffix == "PM") * 60 + ParseDigits(mm))
  }

  /** The 24-hour hour of a 12-hour clock hour: 12 AM is 0, 12 PM is 12. */
  function Hour24(h12: nat, pm: bool): nat {
    if !pm then (if h12 == 12 then 0 else h12) else (if h12 == 12 then 12 else h12 + 12)
  }

  /** The 12-hour text of a well-formed time determines the time: reading it back gives the
      same minute of the day. */
  lemma FormatTimeRoundTrip(t: string)
    requires IsClock(t)
    ensures TwelveHourMinutes(FormatTime(t)) == Some(ClockMinutes(t))
  {
    TimePartsOfClock(t);
    FormatTimeShape(t);
    var h := ClockHour(t);
    var dh := DisplayHour(Some(h));
    ShortNatToString(dh);
    ParseNatToString(dh);
    ReadTwelveHour(NatToString(dh), t[3..], Meridiem(Some(h)));
    Hour24OfDisplay(h);
  }

  /** Reading the displayed hour with its AM/PM suffix recovers the 24-hour hour. */
  lemma Hour24OfDisplay(h: nat)
    requires h < 24
    ensures Hour24(DisplayHour(Some(h)), Meridiem(Some(h)) == "PM") == h
  {
  }

  /** A number below 100 takes at most two digits. */
  lemma ShortNatToString(n: nat)
    requires n < 100
    ensures |NatToString(n)| <= 2
  {
    if n >= 10 {
      assert NatToString(n) == NatToString(n / 10) + [DigitChar(n % 10)];
    }
  }

  /** `TwelveHourMinutes` on "<d>:<m> AM" or "<d>:<m> PM" with a one- or two-digit hour. */
  lemma ReadTwelveHour(d: string, m: string, suffix: string)
    requires 1 <= |d| <= 2 && AllDigits(d) && |m| == 2 && AllDigits(m)
    requires suffix == "AM" || suffix == "PM"
    ensures TwelveHourMinutes(d + ":" + m + " " + suffix)
            == Some(Hour24(ParseDigits(d), suffix == "PM") * 60 + ParseDigits(m))
  {
    var r := d + ":" + m + " " + suffix;
    var n := |r|;
    assert r[..n - 6] == d;
    assert r[n - 5..n - 3] == m;
    assert r[n - 2..] == suffix;
    assert r[n - 6] == ':' && r[n - 3] == ' ';
    TwelveHourFields(r, d, m, suffix);
  }

  /** `TwelveHourMinutes` on a text of the right shape, field by field. */
  lemma TwelveHourFields(r: string, d: string, m: string, suffix: string)
    requires |r| >= 7 && r[|r| - 6] == ':' && r[|r| - 3] == ' '
    requires r[..|r| - 6] == d && r[|r| - 5..|r| - 3] == m && r[|r| - 2..] == suffix
    requires AllDigits(d) && AllDigits(m) && (suffix == "AM" || suffix == "PM")
    ensures TwelveHourMinutes(r) == Some(Hour24(ParseDigits(d), suffix == "PM") * 60 + ParseDigits(m))
  {
  }

  /** Distinct well-formed times never display alike. */
  lemma FormatTimeInjective(a: string, b: string)
    requires IsClock(a) && IsClock(b) && FormatTime(a) == FormatTime(b)
    ensures a == b
  {
    FormatTimeRoundTrip(a);
    FormatTimeRoundTrip(b);
    RenderClockMinutes(a);
    RenderClockMinutes(b);
  }

  // ---------------------------------------------------------------------------------------
  // formatCurrency

  function TwoDigits(n: nat): (r: string)
    requires n < 100
    ensures |r| == 2 && AllDigits(r) && ParseDigits(r) == n
  {
    var r := [DigitChar(n / 10), DigitChar(n % 10)];
    assert r[..1][..0] == [];
    assert ParseDigits(r[..1]) == n / 10;
    r
  }

  /** `formatCurrency` on integer cents: dollars, a point and two cent digits, after a minus
      sign for a negative amount (as `toFixed` writes it). */
  function FormatCurrency(amount: int): (r: string)
    ensures amount >= 0 ==> r == "$" + NatToString(amount / 100) + "." + TwoDigits(amount % 100)
    ensures |r| >= 5 && r[0] == '$'
  {
    var m := if amount < 0 then -amount else amount;
    "$" + (if amount < 0 then "-" else "") + NatToString(m / 100) + "." + TwoDigits(m % 100)
  }

  /** Reads "<digits>.<two digits>" back into cents. */
  function ParseDecimal(num: string): Option<nat> {
    if |num| < 4 || num[|num| - 3] != '.' then None
    else
      var ip, fp := num[..|num| - 3], num[|num| - 2..];
      if !AllDigits(ip) || !AllDigits(fp) then None
      else Some(ParseDigits(ip) * 100 + ParseDigits(fp))
  }

  /** Reads a currency text back into cents. */
  function ParseCurrency(s: string): Option<int> {
    if |s| < 2 || s[0] != '$' then None
    else if s[1] == '-' then
      match ParseDecimal(s[2..])
      case None => None
      case Some(v) => Some(-(v as int))
    else
      match ParseDecimal(s[1..])
      case None => None
      case Some(v) => Some(v as int)
  }

  lemma ParseDecimalOf(m: nat)
    ensures var num := NatToString(m / 100) + "." + TwoDigits(m % 100);
      ParseDecimal(num) == Some(m) && IsDigit(num[0])
  {
    var q, c := m / 100, m % 100;
    assert m == q * 100 + c;
    var d, cs := NatToString(q), TwoDigits(c);
    ParseNatToString(q);
    assert ParseDigits(d) * 100 + ParseDigits(cs) == m;
    ParseDecimalOfParts(d, cs);
  }

  /** Digits, a point and two digits read back as the whole part times 100 plus the cents. */
  lemma ParseDecimalOfParts(d: string, c: string)
    requires |d| >= 1 && AllDigits(d) && |c| == 2 && AllDigits(c)
    ensures ParseDecimal(d + "." + c) == Some(ParseDigits(d) * 100 + ParseDigits(c))
    ensures (d + "." + c)[0] == d[0]
  {
    var num := d + "." + c;
    assert |num| >= 4 && num[|num| - 3] == '.';
    assert num[..|num| - 3] == d;
    assert num[|num| - 2..] == c;
    DecimalFields(num, d, c);
  }

  /** `ParseDecimal` on a text of the right shape, field by field. */
  lemma DecimalFields(num: string, d: string, c: string)
    requires |num| >= 4 && num[|num| - 3] == '.'
    requires num[..|num| - 3] == d && num[|num| - 2..] == c && AllDigits(d) && AllDigits(c)
    ensures ParseDecimal(num) == Some(ParseDigits(d) * 100 + ParseDigits(c))
  {
  }

  /** The currency text determines the amount. */
  lemma FormatCurrencyRoundTrip(amount: int)
    ensures ParseCurrency(FormatCurrency(amount)) == Some(amount)
  {
    var m := if amount < 0 then -amount else amount;
    var num := NatToString(m / 100) + "." + TwoDigits(m % 100);
    ParseDecimalOf(m);
    var s := FormatCurrency(amount);
    if amount < 0 {
      assert s == "$-" + num && s[2..] == num;
    } else {
      assert s == "$" + num && s[1..] == num;
    }
  }

  // ---------------------------------------------------------------------------------------
  // getInitials

  function FirstChar(s: string): (r: string)
    ensures |r| == if |s| > 0 then 1 else 0
    ensures |s| > 0 ==> r[0] == s[0]
  {
    if |s| == 0 then "" else s[..1]
  }

  /** The first character of each name, upper-cased (ASCII letters only). */
  function GetInitials(firstName: string, lastName: string): (r: string)
    ensures |r| == (if |firstName| > 0 then 1 else 0) + (if |lastName| > 0 then 1 else 0)
    ensures |firstName| > 0 ==> r[0] == ToUpperChar(firstName[0])
    ensures |lastName| > 0 ==> r[|r| - 1] == ToUpperChar(lastName[0])
    ensures forall i :: 0 <= i < |r| ==> !('a' <= r[i] <= 'z')
  {
    ToUpper(FirstChar(firstName) + FirstChar(lastName))
  }

  // ---------------------------------------------------------------------------------------
  // validatePhone

  /** `\s` of a JavaScript regular expression: the white space and line terminators. */
  predicate IsJsSpace(c: char) {
    var n := c as int;
    n == 0x09 || n == 0x0A || n == 0x0B || n == 0x0C || n == 0x0D || n == 0x20
    || n == 0xA0 || n == 0x1680 || (0x2000 <= n <= 0x200A) || n == 0x2028 || n == 0x2029
    || n == 0x202F || n == 0x205F || n == 0x3000 || n == 0xFEFF
  }

  /** The character class `[\d\s-()]`. */
  predicate PhoneChar(c: char) {
    IsDigit(c) || IsJsSpace(c) || c == '-' || c == '(' || c == ')'
  }

  predicate AllPhoneChars(s: string) {
    forall i :: 0 <= i < |s| ==> PhoneChar(s[i])
  }

  /** `/^\+?[\d\s-()]+$/`: an optional plus, then one or more characters of the class. */
  predicate PhoneShape(s: string) {
    if |s| > 0 && s[0] == '+' then |s| > 1 && AllPhoneChars(s[1..])
    else |s| > 0 && AllPhoneChars(s)
  }

  /** The length of `phone.replace(/\D/g, '')`: one for each digit. */
  function DigitCount(s: string): (n: nat)
    ensures n <= |s|
    ensures n == |s| <==> AllDigits(s)
    ensures n == 0 <==> forall i :: 0 <= i < |s| ==> !IsDigit(s[i])
  {
    if |s| == 0 then 0
    else
      assert forall i :: 1 <= i < |s| ==> s[1..][i - 1] == s[i];
      (if IsDigit(s[0]) then 1 else 0) + DigitCount(s[1..])
  }

  /** Counting digits is the length of the text with every non-digit removed. */
  lemma {:induction false} DigitCountIsFilter(s: string)
    ensures DigitCount(s) == |Filter(s, IsDigit)|
  {
    if |s| > 0 {
      DigitCountIsFilter(s[1..]);
    }
  }

  /** The digits of two pieces add up. */
  lemma {:induction false} DigitCountAppend(a: string, b: string)
    ensures DigitCount(a + b) == DigitCount(a) + DigitCount(b)
  {
    if |a| == 0 {
      assert a + b == b;
    } else {
      assert (a + b)[1..] == a[1..] + b;
      DigitCountAppend(a[1..], b);
    }
  }

  /** `validatePhone`: the shape matches and there are at least ten digits. On a text of
      bare digits it is exactly the ten-digit minimum. */
  function ValidatePhone(phone: string): (r: bool)
    ensures AllDigits(phone) ==> (r <==> |phone| >= 10)
    ensures r ==> exists i :: 0 <= i < |phone| && IsDigit(phone[i])
  {
    PhoneShape(phone) && DigitCount(phone) >= 10
  }

  /** A valid number has at least ten characters, and nothing but an optional leading plus
      and class characters. */
  lemma ValidPhoneShape(phone: string)
    requires ValidatePhone(phone)
    ensures |phone| >= 10
    ensures forall i :: 0 <= i < |phone| && !(i == 0 && phone[0] == '+') ==> PhoneChar(phone[i])
  {
    forall i | 0 <= i < |phone| && !(i == 0 && phone[0] == '+') ensures PhoneChar(phone[i]) {
      if phone[0] == '+' {
        assert phone[1..][i - 1] == phone[i];
      }
    }
  }

  /** Ten or more bare digits are a valid number, with or without a leading plus. */
  lemma DigitsAreValidPhone(s: string)
    requires AllDigits(s) && |s| >= 10
    ensures ValidatePhone(s) && ValidatePhone("+" + s)
  {
    var t := "+" + s;
    assert t[0] == '+' && t[1..] == s;
    assert !IsDigit(t[0]);
    assert PhoneShape(t) by {
      assert AllPhoneChars(t[1..]);
    }
  }

  /** A letter anywhere makes a number invalid. */
  lemma LetterInvalidatesPhone(phone: string, i: nat)
    requires i < |phone| && 'a' <= phone[i] <= 'z'
    ensures !ValidatePhone(phone)
  {
    if ValidatePhone(phone) {
      ValidPhoneShape(phone);
    }
  }

  // ---------------------------------------------------------------------------------------
  // getStatusColor

  const StatusColors: map<string, string> := map[
    "pending" := "#ffc107",
    "confirmed" := "#0dcaf0",
    "completed" := "#0d6efd",
    "cancelled" := "#dc3545",
    "paid" := "#0dcaf0",
    "refunded" := "#6c757d"]

  const DefaultColor: string := "#6c757d"

  /** The listed colour of a known status, grey for any other string. */
  function GetStatusColor(status: string): (r: string)
    ensures status in StatusColors ==> r == StatusColors[status]
    ensures status !in StatusColors ==> r == DefaultColor
  {
    if status in StatusColors then StatusColors[status] else DefaultColor
  }

  /** Every appointment status but "proposed" has its own entry, and "proposed" falls back
      to grey; every payment status has an entry, "refunded" being the fallback grey. */
  lemma StatusColorCoverage(s: AppointmentStatus, p: PaymentStatus)
    ensures s != Proposed <==> StatusName(s) in StatusColors
    ensures GetStatusColor(StatusName(Proposed)) == DefaultColor
    ensures PaymentStatusName(p) in StatusColors
    ensures GetStatusColor(PaymentStatusName(Refunded)) == DefaultColor
    ensures GetStatusColor(PaymentStatusName(Paid)) == GetStatusColor(StatusName(Confirmed))
  {
  }

  // ---------------------------------------------------------------------------------------
  // calculateAge

  /** A calendar date as `getFullYear`, `getMonth` and `getDate` give it. */
  datatype CivilDate = CivilDate(year: int, month: nat, day: nat)

  /** Calendar order: by year, then month, then day. */
  predicate OnOrBefore(a: CivilDate, b: CivilDate) {
    a.year < b.year
    || (a.year == b.year && (a.month < b.month || (a.month == b.month && a.day <= b.day)))
  }

  /** The birthday `years` years after birth. */
  function Anniversary(birth: CivilDate, years: int): CivilDate {
    birth.(year := birth.year + years)
  }

  /** `calculateAge` with today as a parameter: the completed years, i.e. the birthday of
      that age has come and the next one has not. */
  function CalculateAge(birth: CivilDate, today: CivilDate): (age: int)
    ensures OnOrBefore(Anniversary(birth, age), today)
    ensures !OnOrBefore(Anniversary(birth, age + 1), today)
  {
    var age := today.year - birth.year;
    var monthDiff := today.month - birth.month;
    if monthDiff < 0 || (monthDiff == 0 && today.day < birth.day) then age - 1 else age
  }

  /** Those two facts pin the age down: no other count of years satisfies both. */
  lemma AgeUnique(birth: CivilDate, today: CivilDate, k: int)
    requires OnOrBefore(Anniversary(birth, k), today)
    requires !OnOrBefore(Anniversary(birth, k + 1), today)
    ensures k == CalculateAge(birth, today)
  {
  }

  /** Nobody born on or before today has a negative age. */
  lemma AgeNonNegative(birth: CivilDate, today: CivilDate)
    requires OnOrBefore(birth, today)
    ensures CalculateAge(birth, today) >= 0
  {
  }

  // ---------------------------------------------------------------------------------------
  // isTimeSlotAvailable

  datatype BookedSlot = BookedSlot(date: string, time: string)

  /** No booked slot has this date string and time. The date arrives already as its
      "YYYY-MM-DD" text. */
  function IsTimeSlotAvailable(dateStr: string, time: string, booked: seq<BookedSlot>): (r: bool)
    ensures r <==> forall i :: 0 <= i < |booked| ==> booked[i] != BookedSlot(dateStr, time)
  {
    if |booked| == 0 then true
    else booked[0] != BookedSlot(dateStr, time) && IsTimeSlotAvailable(dateStr, time, booked[1..])
  }

  /** Once the slot is in the list it is taken, wherever it sits; a free slot stays free
      when any other slot is added. */
  lemma SlotTakenOnceBooked(dateStr: string, time: string, before: seq<BookedSlot>,
                            after: seq<BookedSlot>, other: BookedSlot)
    ensures !IsTimeSlotAvailable(dateStr, time, before + [BookedSlot(dateStr, time)] + after)
    ensures other != BookedSlot(dateStr, time) && IsTimeSlotAvailable(dateStr, time, before)
            ==> IsTimeSlotAvailable(dateStr, time, before + [other])
  {
    var s := before + [BookedSlot(dateStr, time)] + after;
    assert s[|before|] == BookedSlot(dateStr, time);
    var s' := before + [other];
    if other != BookedSlot(dateStr, time) && IsTimeSlotAvailable(dateStr, time, before) {
      forall i | 0 <= i < |s'| ensures s'[i] != BookedSlot(dateStr, time) {
        if i < |before| {
          assert s'[i] == before[i];
        }
      }
    }
  }
}
