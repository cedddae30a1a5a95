/**
 * The utility library: case numbers, phone numbers, day arithmetic, file
 * names, text truncation, business days, colour tables and tokens.
 *
 * `Math.random()` is a parameter in [0, 1); a `Date` is its millisecond
 * timestamp, or for the business-day step a whole local day number.
 */
module Helpers {
  import opened Text

  // ---------------------------------------------------------------------
  // generateCaseNumber

  /** `Math.floor(10000 + x * 90000)` for `x = Math.random()`. */
  function CaseSuffix(x: real): (n: int)
    requires 0.0 <= x < 1.0
    ensures 10000 <= n <= 99999
  {
    (10000.0 + x * 90000.0).Floor
  }

  /** `IMM-${year}-${random}`. */
  function GenerateCaseNumber(year: int, x: real): (r: string)
    requires 0.0 <= x < 1.0
    ensures StartsWith(r, "IMM-" + IntToString(year) + "-")
    ensures |r| == 5 + |IntToString(year)| + 5
    ensures AllDigits(r[|r| - 5..]) && ParseDigits(r[|r| - 5..]) == CaseSuffix(x)
  {
    var prefix := "IMM-" + IntToString(year) + "-";
    var digits := NatToString(CaseSuffix(x));
    Pow10Small();
    NatToStringLength(CaseSuffix(x), 5);
    ParseNatToString(CaseSuffix(x));
    assert (prefix + digits)[..|prefix|] == prefix;
    assert (prefix + digits)[|prefix + digits| - 5..] == digits;
    prefix + digits
  }

  /** `^IMM-\d{4}-\d{5}$`. */
  predicate IsCaseNumber(s: string) {
    |s| == 14 && s[..4] == "IMM-" && AllDigits(s[4..8]) && s[8] == '-' && AllDigits(s[9..])
  }

  /** For a four-digit year every generated case number has the documented
      shape, and its year and sequence fields read back as the inputs. */
  lemma CaseNumberFormat(year: int, x: real)
    requires 1000 <= year <= 9999 && 0.0 <= x < 1.0
    ensures IsCaseNumber(GenerateCaseNumber(year, x))
    ensures ParseDigits(GenerateCaseNumber(year, x)[4..8]) == year
    ensures ParseDigits(GenerateCaseNumber(year, x)[9..]) == CaseSuffix(x)
  {
    var r := GenerateCaseNumber(year, x);
    Pow10Small();
    NatToStringLength(year, 4);
    ParseNatToString(year);
    var y := IntToString(year);
    assert r[..9] == "IMM-" + y + "-";
    assert r[4..8] == y;
    assert r[9..] == r[|r| - 5..];
  }

  // ---------------------------------------------------------------------
  // formatPhoneNumber

  /** `phone.replace(/\D/g, '')`: the ASCII digits of `s`, in order. */
  function StripNonDigits(s: string): (r: string)
    ensures AllDigits(r) && |r| <= |s|
    decreases |s|
  {
    if |s| == 0 then ""
    else if IsDigit(s[0]) then [s[0]] + StripNonDigits(s[1..])
    else StripNonDigits(s[1..])
  }

  lemma {:induction false} StripAllDigits(s: string)
    requires AllDigits(s)
    ensures StripNonDigits(s) == s
    decreases |s|
  {
    if |s| > 0 {
      StripAllDigits(s[1..]);
      assert [s[0]] + s[1..] == s;
    }
  }

  /** Phone formatting toward E.164 (ITU-T Recommendation E.164). */
  function FormatPhoneNumber(phone: string): (r: string)
    ensures |r| > 0 && r[0] == '+'
  {
    var cleaned := StripNonDigits(phone);
    if |cleaned| == 10 then "+1" + cleaned
    else if |cleaned| == 11 && cleaned[0] == '1' then "+" + cleaned
    else if StartsWith(phone, "+") then phone
    else "+" + cleaned
  }

  lemma StripPlusDigits(prefix: string, digits: string)
    requires prefix == "+" || prefix == "+1"
    requires AllDigits(digits)
    ensures StripNonDigits(prefix + digits) == prefix[1..] + digits
  {
    var rest := (prefix + digits)[1..];
    assert rest == prefix[1..] + digits;
    assert AllDigits(prefix[1..]);
    assert AllDigits(rest);
    StripAllDigits(rest);
  }

  /** The digits of the result are the digits of the input, with the US
      country code `1` put in front of a ten-digit number. */
  lemma FormatPhoneNumberDigits(phone: string)
    ensures var c := StripNonDigits(phone);
            StripNonDigits(FormatPhoneNumber(phone)) == if |c| == 10 then "1" + c else c
  {
    var c := StripNonDigits(phone);
    if |c| == 10 {
      StripPlusDigits("+1", c);
    } else if |c| == 11 && c[0] == '1' {
      StripPlusDigits("+", c);
    } else if StartsWith(phone, "+") {
    } else {
      StripPlusDigits("+", c);
    }
  }

  /** Unless the input is kept as given (it starts with `+` and is neither
      a ten-digit nor a `1`-led eleven-digit number), the result is `+`
      followed by digits only. */
  lemma FormatPhoneNumberShape(phone: string)
    ensures var c := StripNonDigits(phone);
            var r := FormatPhoneNumber(phone);
            (|c| != 10 && !(|c| == 11 && c[0] == '1') && StartsWith(phone, "+")) ==> r == phone
    ensures var c := StripNonDigits(phone);
            var r := FormatPhoneNumber(phone);
            (|c| == 10 || (|c| == 11 && c[0] == '1') || !StartsWith(phone, "+")) ==>
              AllDigits(r[1..]) && |r| == 1 + (if |c| == 10 then 11 else |c|)
    ensures var c := StripNonDigits(phone);
            var r := FormatPhoneNumber(phone);
            (|c| == 10 ==> r == "+1" + c) && (|c| == 11 && c[0] == '1' ==> r == "+" + c)
  {
    var c := StripNonDigits(phone);
    var r := FormatPhoneNumber(phone);
    if |c| == 10 {
      assert r[1..] == "1" + c;
      assert AllDigits("1" + c);
    } else if (|c| == 11 && c[0] == '1') || !StartsWith(phone, "+") {
      assert r[1..] == c;
    }
  }

  /** A ten-digit number gains `+1` even when it was already written with `+`. */
  lemma FormatPhoneNumberTenDigitsWithPlus(digits: string)
    requires |digits| == 10 && AllDigits(digits)
    ensures FormatPhoneNumber("+" + digits) == "+1" + digits
  {
    StripPlusDigits("+", digits);
  }

  /** Formatting an already formatted number changes nothing. */
  lemma FormatPhoneNumberIdempotent(phone: string)
    ensures FormatPhoneNumber(FormatPhoneNumber(phone)) == FormatPhoneNumber(phone)
  {
    var c := StripNonDigits(phone);
    var r := FormatPhoneNumber(phone);
    FormatPhoneNumberDigits(phone);
    if |c| == 10 {
      assert r == "+" + ("1" + c);
      ElevenDigitsKept("1" + c);
    } else if |c| == 11 && c[0] == '1' {
      ElevenDigitsKept(c);
    } else if !StartsWith(phone, "+") {
      assert r == "+" + c;
      assert StartsWith(r, "+");
    }
  }

  /** `+` and an eleven-character number led by `1` is a fixed point. */
  lemma ElevenDigitsKept(c: string)
    requires |c| == 11 && c[0] == '1' && AllDigits(c)
    ensures FormatPhoneNumber("+" + c) == "+" + c
  {
    StripPlusDigits("+", c);
  }

  // ---------------------------------------------------------------------
  // daysBetween and calculateProcessingTime

  const MsPerDay := 24 * 60 * 60 * 1000

  function Abs(x: int): nat { if x < 0 then -x else x }

  /** `Math.round(x)`: the nearest integer, halves rounded up. */
  function JsRound(x: real): int {
    (x + 0.5).Floor
  }

  /** `Math.round(Math.abs((t1 - t2) / oneDay))` for millisecond timestamps. */
  function DaysBetween(t1: int, t2: int): (r: nat)
    ensures 2 * r * MsPerDay - MsPerDay <= 2 * Abs(t1 - t2) < 2 * r * MsPerDay + MsPerDay
  {
    (2 * Abs(t1 - t2) + MsPerDay) / (2 * MsPerDay)
  }

  /** The integer formula is `Math.round` of the exact quotient. */
  lemma DaysBetweenIsRound(t1: int, t2: int)
    ensures DaysBetween(t1, t2) == JsRound(Abs(t1 - t2) as real / MsPerDay as real)
  {
    var a := Abs(t1 - t2);
    var n := DaysBetween(t1, t2);
    var q := a as real / MsPerDay as real;
    assert q + 0.5 == (2 * a + MsPerDay) as real / (2 * MsPerDay) as real;
    var m := (2 * a + MsPerDay) - n * (2 * MsPerDay);
    assert 0 <= m < 2 * MsPerDay;
    assert (2 * a + MsPerDay) as real == n as real * (2 * MsPerDay) as real + m as real;
    assert q + 0.5 == n as real + m as real / (2 * MsPerDay) as real;
  }

  lemma DaysBetweenSymmetric(t1: int, t2: int)
    ensures DaysBetween(t1, t2) == DaysBetween(t2, t1)
    ensures t1 == t2 ==> DaysBetween(t1, t2) == 0
  {
  }

  datatype ProcessingTime = ProcessingTime(days: nat, weeks: nat, months: nat)

  /** Days between the two instants, and the whole weeks and 30-day months in them. */
  function CalculateProcessingTime(start: int, end: int): (r: ProcessingTime)
    ensures r.days == DaysBetween(start, end)
    ensures r.weeks * 7 <= r.days < r.weeks * 7 + 7
    ensures r.months * 30 <= r.days < r.months * 30 + 30
  {
    var days := DaysBetween(start, end);
    ProcessingTime(days, days / 7, days / 30)
  }

  // ---------------------------------------------------------------------
  // getStatusColor and getPriorityColor

  const CaseStatusColors: map<string, string> := map[
    "INITIATED" := "blue",
    "DOCUMENTS_PENDING" := "yellow",
    "UNDER_REVIEW" := "purple",
    "DOCUMENTS_APPROVED" := "green",
    "APPLICATION_PREPARED" := "indigo",
    "APPLICATION_SUBMITTED" := "indigo",
    "IN_PROGRESS" := "orange",
    "ADDITIONAL_INFO_REQUIRED" := "red",
    "APPROVED" := "green",
    "REJECTED" := "red",
    "COMPLETED" := "gray",
    "CANCELLED" := "gray"
  ]

  const PriorityColors: map<string, string> := map[
    "LOW" := "gray",
    "MEDIUM" := "blue",
    "HIGH" := "orange",
    "URGENT" := "red"
  ]

  function GetStatusColor(status: string): (r: string)
    ensures r in {"blue", "yellow", "purple", "green", "indigo", "orange", "red", "gray"}
  {
    LookupOr(CaseStatusColors, status, "gray")
  }

  function GetPriorityColor(priority: string): (r: string)
    ensures r in {"gray", "blue", "orange", "red"}
  {
    LookupOr(PriorityColors, priority, "gray")
  }

  /** The finished statuses and every unlisted one are gray; the two
      outcomes that need attention are red; an active case is never gray. */
  lemma StatusColorClasses(status: string)
    ensures status in {"COMPLETED", "CANCELLED"} || status !in CaseStatusColors ==> GetStatusColor(status) == "gray"
    ensures status in {"REJECTED", "ADDITIONAL_INFO_REQUIRED"} ==> GetStatusColor(status) == "red"
    ensures status in CaseStatusColors && status !in {"COMPLETED", "CANCELLED"} ==> GetStatusColor(status) != "gray"
  {
  }

  /** Only URGENT is red and only HIGH is orange; LOW and unknown priorities are gray. */
  lemma PriorityColorClasses(priority: string)
    ensures GetPriorityColor(priority) == "red" <==> priority == "URGENT"
    ensures GetPriorityColor(priority) == "orange" <==> priority == "HIGH"
    ensures GetPriorityColor(priority) == "gray" <==> priority !in {"MEDIUM", "HIGH", "URGENT"}
  {
  }

  // ---------------------------------------------------------------------
  // sanitizeFilename

  /** `[a-zA-Z0-9.-]`. */
  predicate IsFilenameChar(c: char) {
    IsUpper(c) || IsLower(c) || IsDigit(c) || c == '.' || c == '-'
  }

  /** `filename.replace(/[^a-zA-Z0-9.-]/g, '_')`. */
  function SanitizeFilename(name: string): (r: string)
    ensures |r| == |name|
    decreases |name|
  {
    if |name| == 0 then ""
    else [if IsFilenameChar(name[0]) then name[0] else '_'] + SanitizeFilename(name[1..])
  }

  /** Each character is kept when allowed and becomes `_` otherwise. */
  lemma {:induction false} SanitizeFilenameAt(name: string, i: nat)
    requires i < |name|
    ensures SanitizeFilename(name)[i] == if IsFilenameChar(name[i]) then name[i] else '_'
    decreases |name|
  {
    if i > 0 {
      SanitizeFilenameAt(name[1..], i - 1);
    }
  }

  /** Every character of a sanitised name is in `[A-Za-z0-9._-]`, and a
      name already made of allowed characters comes back unchanged. */
  lemma SanitizeFilenameSafe(name: string)
    ensures forall i :: 0 <= i < |name| ==>
              IsFilenameChar(SanitizeFilename(name)[i]) || SanitizeFilename(name)[i] == '_'
    ensures (forall i :: 0 <= i < |name| ==> IsFilenameChar(name[i])) ==> SanitizeFilename(name) == name
  {
    forall i | 0 <= i < |name| ensures SanitizeFilename(name)[i] == if IsFilenameChar(name[i]) then name[i] else '_' {
      SanitizeFilenameAt(name, i);
    }
  }

  lemma SanitizeFilenameIdempotent(name: string)
    ensures SanitizeFilename(SanitizeFilename(name)) == SanitizeFilename(name)
  {
    var r := SanitizeFilename(name);
    forall i | 0 <= i < |r| ensures SanitizeFilename(r)[i] == r[i] {
      SanitizeFilenameAt(name, i);
      SanitizeFilenameAt(r, i);
    }
  }

  // ---------------------------------------------------------------------
  // truncateText

  /** `text.length <= maxLength ? text : text.substring(0, maxLength) + '...'`;
      `substring` treats a negative end as 0. */
  function TruncateText(text: string, maxLength: int): (r: string)
    ensures |text| <= maxLength ==> r == text
    ensures |text| > maxLength ==>
              var keep := if maxLength < 0 then 0 else maxLength;
              |r| == keep + 3 && r[..keep] == text[..keep] && r[keep..] == "..."
  {
    if |text| <= maxLength then text
    else text[..if maxLength < 0 then 0 else maxLength] + "..."
  }

  // ---------------------------------------------------------------------
  // getNextBusinessDay

  /** `Date.getDay()` of the local day with number `d` (day 0 is Thursday 1 January 1970; 0 = Sunday). */
  function Weekday(d: int): (w: int)
    ensures 0 <= w < 7
  {
    (d + 4) % 7
  }

  predicate IsWeekend(d: int) {
    Weekday(d) == 0 || Weekday(d) == 6
  }

  lemma WeekdayNext(d: int)
    ensures Weekday(d + 1) == (Weekday(d) + 1) % 7
  {
  }

  /** Saturday and Sunday are the only weekend days, so no three days in a row are all weekend. */
  lemma NoThreeWeekendDays(d: int)
    ensures !(IsWeekend(d) && IsWeekend(d + 1) && IsWeekend(d + 2))
  {
    WeekdayNext(d);
    WeekdayNext(d + 1);
  }

  /** The first day after `day` that is neither Saturday nor Sunday. */
  method GetNextBusinessDay(day: int) returns (next: int)
    ensures day < next <= day + 3
    ensures !IsWeekend(next)
    ensures forall d :: day < d < next ==> IsWeekend(d)
  {
    next := day + 1;
    while IsWeekend(next)
      invariant day < next <= day + 3
      invariant forall d :: day < d < next ==> IsWeekend(d)
      decreases day + 3 - next
    {
      NoThreeWeekendDays(day + 1);
      next := next + 1;
    }
  }

  // ---------------------------------------------------------------------
  // generateToken

  const TokenChars := "ABCDEFGHIJKLMNOPQRSTUVWXYZabcdefghijklmnopqrstuvwxyz0123456789"

  /** `Math.floor(x * chars.length)` for `x = Math.random()`. */
  function TokenIndex(x: real): (i: nat)
    requires 0.0 <= x < 1.0
    ensures i < |TokenChars|
  {
    (x * |TokenChars| as real).Floor
  }

  /** Random token of `length` characters; `draws[i]` is the i-th `Math.random()` value. */
  method GenerateToken(length: int, draws: seq<real>) returns (token: string)
    requires length <= |draws|
    requires forall i :: 0 <= i < |draws| ==> 0.0 <= draws[i] < 1.0
    ensures |token| == if length < 0 then 0 else length
    ensures forall i :: 0 <= i < |token| ==> token[i] == TokenChars[TokenIndex(draws[i])]
    ensures forall i :: 0 <= i < |token| ==> token[i] in TokenChars
  {
    token := "";
    var i := 0;
    while i < length
      invariant 0 <= i <= (if length < 0 then 0 else length) && |token| == i
      invariant forall j :: 0 <= j < i ==> token[j] == TokenChars[TokenIndex(draws[j])]
    {
      token := token + [TokenChars[TokenIndex(draws[i])]];
      i := i + 1;
    }
  }

}
