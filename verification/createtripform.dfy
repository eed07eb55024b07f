/** The trip-creation form of the planner: on submit it dismisses any earlier
    error, checks that every field is filled, splits the destination into a
    city and a country, turns the two dates into a whole number of days, and
    hands either an error or the request body for POST `/trips/build` to its
    parent. */
module TripForm {
  import opened Common
  import Trips

  const FILL_ALL_FIELDS: string := "Please fill out all fields."
  const CITY_COUNTRY_FORMAT: string := "Destination must be in 'City, Country' format."
  const END_AFTER_START: string := "End date must be after the start date."

  // ------------------------------------------------------------ trimming

  /** The characters `String.prototype.trim` removes: ECMAScript's WhiteSpace
      and LineTerminator code points. */
  predicate IsSpace(c: char) {
    var n := c as int;
    || n == 0x09 || n == 0x0A || n == 0x0B || n == 0x0C || n == 0x0D || n == 0x20
    || n == 0xA0 || n == 0x1680 || (0x2000 <= n <= 0x200A) || n == 0x2028 || n == 0x2029
    || n == 0x202F || n == 0x205F || n == 0x3000 || n == 0xFEFF
  }

  /** The number of characters satisfying `sp` that `s` starts with. */
  function LeadBy(s: string, sp: char -> bool): (n: nat)
    ensures n <= |s|
    ensures forall k :: 0 <= k < n ==> sp(s[k])
    ensures n < |s| ==> !sp(s[n])
  {
    if |s| > 0 && sp(s[0]) then 1 + LeadBy(s[1..], sp) else 0
  }

  /** The number of characters satisfying `sp` that `s` ends with. */
  function TrailBy(s: string, sp: char -> bool): (n: nat)
    ensures n <= |s|
    ensures forall k :: |s| - n <= k < |s| ==> sp(s[k])
    ensures n < |s| ==> !sp(s[|s| - n - 1])
  {
    if |s| > 0 && sp(s[|s| - 1]) then 1 + TrailBy(s[..|s| - 1], sp) else 0
  }

  /** What is left of `s` between the characters satisfying `sp` it starts
      with and those it ends with. */
  function TrimBy(s: string, sp: char -> bool): (r: string)
    ensures LeadBy(s, sp) + |r| <= |s| && r == s[LeadBy(s, sp)..LeadBy(s, sp) + |r|]
    ensures |r| > 0 ==> !sp(r[0]) && !sp(r[|r| - 1])
    ensures forall k :: 0 <= k < LeadBy(s, sp) ==> sp(s[k])
    ensures forall k :: LeadBy(s, sp) + |r| <= k < |s| ==> sp(s[k])
  {
    var n := LeadBy(s, sp);
    var t := s[n..];
    var m := TrailBy(t, sp);
    CutEnds(t, m, sp);
    assert forall k :: n + |t| - m <= k < |s| ==> s[k] == t[k - n];
    t[..|t| - m]
  }

  /** Cutting off a tail of `m` characters from text that starts with a
      character outside `sp`, where the character before the tail is outside
      `sp` too, leaves text whose ends are both outside `sp`. */
  lemma CutEnds(t: string, m: nat, sp: char -> bool)
    requires m <= |t|
    requires |t| > 0 ==> !sp(t[0])
    requires m < |t| ==> !sp(t[|t| - m - 1])
    ensures var r := t[..|t| - m]; |r| > 0 ==> !sp(r[0]) && !sp(r[|r| - 1])
  {
    var r := t[..|t| - m];
    if |r| > 0 {
      assert r[0] == t[0] && r[|r| - 1] == t[|t| - m - 1];
    }
  }

  /** `s.trim()`: the result neither starts nor ends with white space, it is
      an infix of `s`, and everything cut away is white space. */
  function Trim(s: string): (r: string)
    ensures LeadBy(s, IsSpace) + |r| <= |s| && r == s[LeadBy(s, IsSpace)..LeadBy(s, IsSpace) + |r|]
    ensures |r| > 0 ==> !IsSpace(r[0]) && !IsSpace(r[|r| - 1])
    ensures forall k :: 0 <= k < LeadBy(s, IsSpace) ==> IsSpace(s[k])
    ensures forall k :: LeadBy(s, IsSpace) + |r| <= k < |s| ==> IsSpace(s[k])
  {
    TrimBy(s, IsSpace)
  }

  /** A value without surrounding white space is its own trim. */
  lemma TrimKeeps(s: string)
    requires |s| > 0 ==> !IsSpace(s[0]) && !IsSpace(s[|s| - 1])
    ensures Trim(s) == s
  {
  }

  /** Trimming twice is trimming once. */
  lemma TrimIdempotent(s: string)
    ensures Trim(Trim(s)) == Trim(s)
  {
    TrimKeeps(Trim(s));
  }

  // ------------------------------------------------------------ splitting

  function Commas(s: string): nat {
    if |s| == 0 then 0 else (if s[0] == ',' then 1 else 0) + Commas(s[1..])
  }

  lemma {:induction false} CommasAppend(a: string, b: string)
    ensures Commas(a + b) == Commas(a) + Commas(b)
  {
    if |a| == 0 {
      assert a + b == b;
    } else {
      assert (a + b)[0] == a[0];
      assert (a + b)[1..] == a[1..] + b;
      CommasAppend(a[1..], b);
    }
  }

  /** `parts.join(",")`. */
  function Join(parts: seq<string>): string
    requires |parts| > 0
  {
    if |parts| == 1 then parts[0] else parts[0] + "," + Join(parts[1..])
  }

  function FirstComma(s: string): (r: Option<nat>)
    ensures r.Some? ==> r.value < |s| && s[r.value] == ','
    ensures r.Some? ==> forall k :: 0 <= k < r.value ==> s[k] != ','
    ensures r.None? ==> forall k :: 0 <= k < |s| ==> s[k] != ','
  {
    FindFirst(s, (c: char) => c == ',')
  }

  /** `s.split(",")`: the texts between commas, in order, with as many parts
      as there are commas plus one, and nothing lost. */
  function Split(s: string): (r: seq<string>)
    ensures |r| == Commas(s) + 1
    ensures forall i :: 0 <= i < |r| ==> ',' !in r[i]
    ensures Join(r) == s
    decreases |s|
  {
    match FirstComma(s)
    case None =>
      assert Commas(s) == 0 by { NoCommas(s); }
      [s]
    case Some(i) =>
      var head, rest := s[..i], Split(s[i + 1..]);
      CommasAround(s, i);
      NoCommas(head);
      assert ([head] + rest)[1..] == rest;
      assert s == head + "," + s[i + 1..];
      [head] + rest
  }

  /** A comma at `i` counts once, between the commas before and after it. */
  lemma CommasAround(s: string, i: nat)
    requires i < |s| && s[i] == ','
    ensures Commas(s) == Commas(s[..i]) + 1 + Commas(s[i + 1..])
  {
    assert s == s[..i] + ("," + s[i + 1..]);
    CommasAppend(s[..i], "," + s[i + 1..]);
    CommasAppend(",", s[i + 1..]);
    assert Commas(",") == 1 by { assert ","[1..] == ""; }
  }

  lemma {:induction false} NoCommas(s: string)
    requires forall k :: 0 <= k < |s| ==> s[k] != ','
    ensures Commas(s) == 0
  {
    if |s| > 0 {
      NoCommas(s[1..]);
    }
  }

  /** `destination.split(",").map((part) => part.trim())`. */
  function Parts(destination: string): (r: seq<string>)
    ensures |r| == Commas(destination) + 1
  {
    var pieces := Split(destination);
    seq(|pieces|, i requires 0 <= i < |pieces| => Trim(pieces[i]))
  }

  /** A destination has the `City, Country` shape exactly when it holds one
      comma; the city and the country are then the trimmed texts on either
      side of it. */
  lemma PartsOfOneComma(destination: string)
    ensures |Parts(destination)| == 2 <==> Commas(destination) == 1
    ensures Commas(destination) == 1 ==>
      var i := FirstComma(destination).value;
      && Parts(destination)[0] == Trim(destination[..i])
      && Parts(destination)[1] == Trim(destination[i + 1..])
  {
    if Commas(destination) == 1 {
      SplitOneComma(destination);
    }
  }

  /** Text with one comma splits into the texts on either side of it. */
  lemma SplitOneComma(s: string)
    requires Commas(s) == 1
    ensures FirstComma(s).Some?
    ensures Split(s) == [s[..FirstComma(s).value], s[FirstComma(s).value + 1..]]
  {
    assert |Split(s)| == 2;
    if FirstComma(s).Some? {
      var i := FirstComma(s).value;
      var rest := Split(s[i + 1..]);
      assert |rest| == 1;
      assert Join(rest) == rest[0];
    }
  }

  // ------------------------------------------------------------ dates

  predicate IsDigit(c: char) {
    '0' <= c <= '9'
  }

  function DigitValue(c: char): nat
    requires IsDigit(c)
  {
    c as int - '0' as int
  }

  /** The `YYYY-MM-DD` text a date input holds once a date is picked. */
  predicate IsoShape(s: string) {
    && |s| == 10 && s[4] == '-' && s[7] == '-'
    && IsDigit(s[0]) && IsDigit(s[1]) && IsDigit(s[2]) && IsDigit(s[3])
    && IsDigit(s[5]) && IsDigit(s[6]) && IsDigit(s[8]) && IsDigit(s[9])
  }

  datatype Date = Date(year: nat, month: nat, day: nat)

  function Fields(s: string): Date
    requires IsoShape(s)
  {
    Date(
      1000 * DigitValue(s[0]) + 100 * DigitValue(s[1]) + 10 * DigitValue(s[2]) + DigitValue(s[3]),
      10 * DigitValue(s[5]) + DigitValue(s[6]),
      10 * DigitValue(s[8]) + DigitValue(s[9]))
  }

  predicate IsLeap(y: nat) {
    y % 4 == 0 && (y % 100 != 0 || y % 400 == 0)
  }

  function YearLength(y: nat): nat {
    if IsLeap(y) then 366 else 365
  }

  function MonthLength(y: nat, m: nat): nat
    requires 1 <= m <= 12
  {
    if m == 2 then (if IsLeap(y) then 29 else 28)
    else if m == 4 || m == 6 || m == 9 || m == 11 then 30
    else 31
  }

  predicate IsCalendarDate(d: Date) {
    1 <= d.month <= 12 && 1 <= d.day <= MonthLength(d.year, d.month)
  }

  /** Days of year `y` before the first of month `m`. */
  function DaysBeforeMonth(y: nat, m: nat): nat
    requires 1 <= m <= 13
  {
    if m == 1 then 0 else DaysBeforeMonth(y, m - 1) + MonthLength(y, m - 1)
  }

  /** Days from 0000-01-01 to the first of year `y` in the proleptic
      Gregorian calendar ECMAScript dates use. */
  function DaysBeforeYear(y: nat): nat {
    if y == 0 then 0 else DaysBeforeYear(y - 1) + YearLength(y - 1)
  }

  function DayNumber(d: Date): int
    requires IsCalendarDate(d)
  {
    DaysBeforeYear(d.year) + DaysBeforeMonth(d.year, d.month) + d.day - 1
  }

  const EPOCH: Date := Date(1970, 1, 1)

  /** `new Date(s)` for a date input's value: midnight UTC of that day, in
      milliseconds since 1970-01-01, or `None` for NaN. */
  function TimeValue(s: string): (r: Option<int>)
    ensures r.Some? <==> IsoShape(s) && IsCalendarDate(Fields(s))
  {
    if IsoShape(s) && IsCalendarDate(Fields(s)) then
      Some((DayNumber(Fields(s)) - DayNumber(EPOCH)) * DAY_MS)
    else None
  }

  /** `Math.ceil(a / b)`: the least integer whose multiple of `b` reaches `a`. */
  function CeilDiv(a: int, b: int): (r: int)
    requires b > 0
    ensures r * b >= a && (r - 1) * b < a
  {
    -((-a) / b)
  }

  /** `Math.ceil((end - start) / (1000 * 60 * 60 * 24))`, with `None` for NaN. */
  function Duration(startDate: string, endDate: string): Option<int> {
    var start, end := TimeValue(startDate), TimeValue(endDate);
    if start.Some? && end.Some? then Some(CeilDiv(end.value - start.value, DAY_MS)) else None
  }

  /** Calendar order on dates. */
  predicate Before(a: Date, b: Date) {
    a.year < b.year || (a.year == b.year && (a.month < b.month || (a.month == b.month && a.day < b.day)))
  }

  lemma MonthsBefore(y: nat, m: nat, n: nat)
    requires 1 <= m <= n <= 13
    ensures DaysBeforeMonth(y, m) <= DaysBeforeMonth(y, n)
    decreases n - m
  {
    if m < n {
      MonthsBefore(y, m, n - 1);
    }
  }

  lemma YearsBefore(y: nat, z: nat)
    requires y <= z
    ensures DaysBeforeYear(y) <= DaysBeforeYear(z)
    decreases z - y
  {
    if y < z {
      YearsBefore(y, z - 1);
    }
  }

  /** The twelve months make up the year. */
  lemma MonthsFillYear(y: nat)
    ensures DaysBeforeMonth(y, 13) == YearLength(y)
  {
    var feb := if IsLeap(y) then 29 else 28;
    assert DaysBeforeMonth(y, 2) == 31;
    assert DaysBeforeMonth(y, 3) == 31 + feb;
    assert DaysBeforeMonth(y, 4) == 62 + feb;
    assert DaysBeforeMonth(y, 5) == 92 + feb;
    assert DaysBeforeMonth(y, 6) == 123 + feb;
    assert DaysBeforeMonth(y, 7) == 153 + feb;
    assert DaysBeforeMonth(y, 8) == 184 + feb;
    assert DaysBeforeMonth(y, 9) == 215 + feb;
    assert DaysBeforeMonth(y, 10) == 245 + feb;
    assert DaysBeforeMonth(y, 11) == 276 + feb;
    assert DaysBeforeMonth(y, 12) == 306 + feb;
  }

  /** A day number stays inside its year. */
  lemma DayInYear(d: Date)
    requires IsCalendarDate(d)
    ensures DaysBeforeYear(d.year) <= DayNumber(d) < DaysBeforeYear(d.year + 1)
  {
    MonthsBefore(d.year, d.month + 1, 13);
    MonthsFillYear(d.year);
  }

  /** Day numbers follow the calendar: an earlier date has a smaller number. */
  lemma DayNumberOrder(a: Date, b: Date)
    requires IsCalendarDate(a) && IsCalendarDate(b) && Before(a, b)
    ensures DayNumber(a) < DayNumber(b)
  {
    if a.year < b.year {
      DayInYear(a);
      DayInYear(b);
      YearsBefore(a.year + 1, b.year);
    } else if a.month < b.month {
      MonthsBefore(a.year, a.month + 1, b.month);
    }
  }

  /** A whole number of days between midnights divides exactly. */
  lemma CeilDivExact(k: int, b: int)
    requires b > 0
    ensures CeilDiv(k * b, b) == k
  {
    var r := CeilDiv(k * b, b);
    assert (r - k) * b == r * b - k * b;
    assert (r - 1 - k) * b == (r - 1) * b - k * b;
    ProductSign(r - k, b);
    ProductSign(r - 1 - k, b);
  }

  /** A product with a positive factor has the other factor's sign. */
  lemma ProductSign(x: int, b: int)
    requires b > 0
    ensures x * b >= 0 <==> x >= 0
  {
    if x < 0 {
      assert x * b == -((-x) * b);
    }
  }

  /** For two picked dates the duration is the number of days from the
      start to the end, and it is at least one exactly when the end comes
      after the start. */
  lemma DurationOfDates(startDate: string, endDate: string)
    requires TimeValue(startDate).Some? && TimeValue(endDate).Some?
    ensures Duration(startDate, endDate) == Some(DayNumber(Fields(endDate)) - DayNumber(Fields(startDate)))
    ensures Duration(startDate, endDate).value >= 1 <==> Before(Fields(startDate), Fields(endDate))
  {
    var a, b := Fields(startDate), Fields(endDate);
    var e := DayNumber(EPOCH);
    var diff := DayNumber(b) - DayNumber(a);
    assert (DayNumber(b) - e) * DAY_MS - (DayNumber(a) - e) * DAY_MS == diff * DAY_MS;
    CeilDivExact(diff, DAY_MS);
    if Before(a, b) {
      DayNumberOrder(a, b);
    } else if Before(b, a) {
      DayNumberOrder(b, a);
    }
  }

  // ------------------------------------------------------------ submitting

  /** One entry of the payload's `destinations`. */
  datatype DestinationDraft = DestinationDraft(cityName: string, countryName: string, durationDays: Option<int>, stopOrder: int)

  /** `formData`; a NaN duration is `None`. */
  datatype TripDraft = TripDraft(
    name: string,
    description: string,
    startDate: string,
    durationDays: Option<int>,
    destinations: seq<DestinationDraft>)

  /** The argument of `onTripCreate`. */
  datatype Submission = Rejected(error: string) | Draft(trip: TripDraft)

  /** A callback the form invokes, in order. */
  datatype Event = DismissError | TripCreate(submission: Submission)

  /** `Please fill out all fields` applies when any field is empty. */
  predicate AnyEmpty(tripName: string, destination: string, startDate: string, endDate: string) {
    |tripName| == 0 || |destination| == 0 || |startDate| == 0 || |endDate| == 0
  }

  function Describe(city: string, country: string): string {
    "A trip to " + city + ", " + country + "."
  }

  /** `handleCreate` on the current field values: the callbacks it invokes. */
  function HandleCreate(tripName: string, destination: string, startDate: string, endDate: string): (r: seq<Event>)
    ensures |r| == 2 && r[0] == DismissError && r[1].TripCreate?
    ensures AnyEmpty(tripName, destination, startDate, endDate) <==> r[1] == TripCreate(Rejected(FILL_ALL_FIELDS))
    ensures r[1].submission == Rejected(CITY_COUNTRY_FORMAT) <==>
      !AnyEmpty(tripName, destination, startDate, endDate) && Commas(destination) != 1
    ensures r[1].submission == Rejected(END_AFTER_START) <==>
      (&& !AnyEmpty(tripName, destination, startDate, endDate) && Commas(destination) == 1
       && Duration(startDate, endDate).Some? && Duration(startDate, endDate).value < 1)
    ensures r[1].submission.Draft? ==>
      var d := r[1].submission.trip;
      && d.name == tripName && d.startDate == startDate && d.durationDays == Duration(startDate, endDate)
      && |d.destinations| == 1
      && d.destinations[0] == DestinationDraft(Parts(destination)[0], Parts(destination)[1], d.durationDays, 1)
      && d.description == Describe(d.destinations[0].cityName, d.destinations[0].countryName)
  {
    [DismissError, TripCreate(Submit(tripName, destination, startDate, endDate))]
  }

  function Submit(tripName: string, destination: string, startDate: string, endDate: string): Submission {
    if AnyEmpty(tripName, destination, startDate, endDate) then Rejected(FILL_ALL_FIELDS)
    else
      var parts := Parts(destination);
      if |parts| != 2 then Rejected(CITY_COUNTRY_FORMAT)
      else
        var duration := Duration(startDate, endDate);
        if duration.Some? && duration.value < 1 then Rejected(END_AFTER_START)
        else
          var city, country := parts[0], parts[1];
          Draft(TripDraft(tripName, Describe(city, country), startDate, duration,
            [DestinationDraft(city, country, duration, 1)]))
  }

  /** Once every field is filled and the destination has one comma, picked
      dates are refused exactly when the end is not after the start, and
      the draft then carries the day count between them. */
  lemma DatesDecide(tripName: string, destination: string, startDate: string, endDate: string)
    requires !AnyEmpty(tripName, destination, startDate, endDate) && Commas(destination) == 1
    requires TimeValue(startDate).Some? && TimeValue(endDate).Some?
    ensures var s := HandleCreate(tripName, destination, startDate, endDate)[1].submission;
      && (s.Draft? <==> Before(Fields(startDate), Fields(endDate)))
      && (s.Draft? ==> s.trip.durationDays == Some(DayNumber(Fields(endDate)) - DayNumber(Fields(startDate))))
  {
    DurationOfDates(startDate, endDate);
  }

  /** A date that does not parse makes the duration NaN, which the `< 1`
      test lets through: the draft goes out with no duration. */
  lemma UnparsedDatePasses(tripName: string, destination: string, startDate: string, endDate: string)
    requires !AnyEmpty(tripName, destination, startDate, endDate) && Commas(destination) == 1
    requires TimeValue(startDate).None? || TimeValue(endDate).None?
    ensures var s := HandleCreate(tripName, destination, startDate, endDate)[1].submission;
      s.Draft? && s.trip.durationDays.None?
  {
  }

  // ------------------------------------------------------------ what the server makes of the draft

  /** A duration as `JSON.stringify` writes it: NaN becomes `null`. */
  function NumberJson(n: Option<int>): Json {
    if n.Some? then JNum(n.value as real) else JNull
  }

  /** The body POST `/trips/build` receives for a draft. */
  function AsBody(d: TripDraft): Trips.TripBody {
    Trips.TripBody(
      Some(JStr(d.name)),
      Some(JStr(d.description)),
      Some(JStr(d.startDate)),
      Some(NumberJson(d.durationDays)),
      Some(seq(|d.destinations|, i requires 0 <= i < |d.destinations| =>
        Trips.DestinationBody(
          Some(JStr(d.destinations[i].cityName)),
          Some(JStr(d.destinations[i].countryName)),
          Some(JNum(d.destinations[i].stopOrder as real)),
          Some(NumberJson(d.destinations[i].durationDays))))))
  }

  /** The server's schema accepts a one-stop draft exactly when its city and
      country are non-empty and its duration is a number. */
  lemma DraftBodyIff(d: TripDraft)
    requires |d.name| > 0 && |d.destinations| == 1 && d.destinations[0].stopOrder == 1
    requires d.destinations[0].durationDays == d.durationDays
    ensures Trips.IsTripBody(AsBody(d)) <==>
      |d.destinations[0].cityName| > 0 && |d.destinations[0].countryName| > 0 && d.durationDays.Some?
  {
    var b := AsBody(d);
    var x := d.destinations[0];
    assert IsInteger(1 as real);
    if d.durationDays.Some? {
      assert IsInteger(d.durationDays.value as real);
    }
    assert |b.destinations.value| == 1;
    assert b.destinations.value[0] == Trips.DestinationBody(
      Some(JStr(x.cityName)), Some(JStr(x.countryName)), Some(JNum(1 as real)), Some(NumberJson(d.durationDays)));
    assert Trips.IsTripBody(b) <==> Trips.IsOptionalInt(b.durationDays) && Trips.IsDestination(b.destinations.value[0]);
  }

  /** What the form sends is accepted by the server exactly when the city
      and the country are non-empty and both dates parsed. */
  lemma DraftAcceptedIff(tripName: string, destination: string, startDate: string, endDate: string)
    requires HandleCreate(tripName, destination, startDate, endDate)[1].submission.Draft?
    ensures var d := HandleCreate(tripName, destination, startDate, endDate)[1].submission.trip;
      Trips.IsTripBody(AsBody(d)) <==>
        |Parts(destination)[0]| > 0 && |Parts(destination)[1]| > 0 && Duration(startDate, endDate).Some?
  {
    DraftBodyIff(HandleCreate(tripName, destination, startDate, endDate)[1].submission.trip);
  }

  /** `"Paris,"` has the `City, Country` shape the form asks for, but its
      country is empty, so the draft it produces is refused by the server. */
  lemma ParisCommaParts()
    ensures Commas("Paris,") == 1
    ensures Parts("Paris,")[1] == ""
  {
    var p := "Paris,";
    assert p[5] == ',' && forall k :: 0 <= k < 5 ==> p[k] != ',';
    assert FirstComma(p) == Some(5);
    assert p[..5] == "Paris" && p[6..] == "";
    assert FirstComma("") == None;
    assert Split(p) == ["Paris", ""];
    assert Trim("") == "";
  }

  lemma TrailingCommaRefused(tripName: string, startDate: string, endDate: string)
    requires |tripName| > 0 && |startDate| > 0 && |endDate| > 0
    ensures var s := HandleCreate(tripName, "Paris,", startDate, endDate)[1].submission;
      s.Draft? || s == Rejected(END_AFTER_START)
    ensures var s := HandleCreate(tripName, "Paris,", startDate, endDate)[1].submission;
      s.Draft? ==> s.trip.destinations[0].countryName == "" && !Trips.IsTripBody(AsBody(s.trip))
  {
    var p := "Paris,";
    ParisCommaParts();
    var s := HandleCreate(tripName, p, startDate, endDate)[1].submission;
    if s.Draft? {
      DraftAcceptedIff(tripName, p, startDate, endDate);
    }
  }
}
