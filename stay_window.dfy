/** The pricing endpoint `/api/hotels_details` of the backend proxy: it
    turns a scraped event date such as "Saturday, October 4" into a stay
    window (check-in the day before, check-out the day after, in the current
    year) and stamps that window onto the upstream rates response. */
module StayWindow {

  import opened Json
  import opened Text
  import opened Calendar
  import opened Http

  /** A JavaScript `Date` object: a calendar day or the Invalid Date. */
  datatype JsDate = InvalidDate | At(date: Day)

  type Day = d: Date | ValidDate(d) witness Date(1970, 1, 1)

  const MonthPrefixes: seq<string> :=
    ["jan", "feb", "mar", "apr", "may", "jun", "jul", "aug", "sep", "oct", "nov", "dec"]

  function LowerAscii(c: char): char
  {
    if 'A' <= c <= 'Z' then (c as int + 32) as char else c
  }

  /** The month a word names for the engine's date-string parser: its first
      three letters, in any case, are those of a month name. */
  function MonthOf(word: string): (m: Option<int>)
    ensures m.Some? ==> 1 <= m.value <= 12
  {
    if |word| < 3 then None
    else
      var p := [LowerAscii(word[0]), LowerAscii(word[1]), LowerAscii(word[2])];
      MonthIndexFrom(p, 0)
  }

  function MonthIndexFrom(p: string, k: nat): (m: Option<int>)
    requires k <= 12
    ensures m.Some? ==> k + 1 <= m.value <= 12 && MonthPrefixes[m.value - 1] == p
    ensures m.None? ==> forall j :: k <= j < 12 ==> MonthPrefixes[j] != p
    decreases 12 - k
  {
    if k == 12 then None
    else if MonthPrefixes[k] == p then Some(k + 1)
    else MonthIndexFrom(p, k + 1)
  }

  /** `new Date(`${month} ${day}, ${year}`)`: a month word and a day of 1 to
      31 give that day counted from the first of the month (so February 30
      is 2 March); anything else is the Invalid Date. */
  function ParseMonthDay(month: string, day: Option<string>, year: int): (r: JsDate)
    ensures r.At? ==> MonthOf(month).Some? && day.Some? && day.value != [] && AllDigits(day.value)
  {
    var m := MonthOf(month);
    if m.Some? && day.Some? && day.value != [] && AllDigits(day.value)
       && 1 <= ParseDigits(day.value) <= 31
    then At(MakeDay(year, m.value, ParseDigits(day.value)))
    else InvalidDate
  }

  /** The event day of `eventDate`, or None when the handler throws because
      the string holds no ", " (so `monthDay` is undefined). */
  function EventDay(eventDate: string, year: int): (r: Option<JsDate>)
    ensures r.None? <==> !Contains(eventDate, ", ")
  {
    var parts := Split(eventDate, ", ");
    if |parts| < 2 then None
    else
      var monthDay := Split(parts[1], " ");
      Some(ParseMonthDay(monthDay[0], if |monthDay| >= 2 then Some(monthDay[1]) else None, year))
  }

  /** A month word and a day that exists in that month give exactly that
      day of the month. */
  lemma ParseMonthDayWithin(month: string, day: string, year: int)
    requires MonthOf(month).Some? && day != [] && AllDigits(day)
    requires 1 <= ParseDigits(day) <= DaysInMonth(year, MonthOf(month).value)
    ensures ParseMonthDay(month, Some(day), year) == At(Date(year, MonthOf(month).value, ParseDigits(day)))
  {
    MakeDayWithin(year, MonthOf(month).value, ParseDigits(day));
  }

  /** `const d = new Date(event); d.setDate(event.getDate() + delta)`. */
  function Shift(event: JsDate, delta: int): JsDate
  {
    match event
    case InvalidDate => InvalidDate
    case At(d) => At(SetDate(d, d.day + delta))
  }

  /** `formatDate`; on the Invalid Date every getter yields NaN. */
  function FormatJsDate(d: JsDate): string
  {
    match d
    case InvalidDate => "NaN-NaN-NaN"
    case At(x) => FormatDate(x)
  }

  datatype Window = Window(checkin: string, checkout: string)

  /** Lines 62-81: the window around one event day. */
  function WindowOf(event: JsDate): (w: Window)
    ensures event.InvalidDate? ==> w == Window("NaN-NaN-NaN", "NaN-NaN-NaN")
    ensures event.At? ==>
      w == Window(FormatDate(PrevDay(event.date)), FormatDate(NextDay(event.date)))
  {
    if event.At? then
      SetDateNeighbours(event.date);
      Window(FormatJsDate(Shift(event, -1)), FormatJsDate(Shift(event, 1)))
    else
      Window(FormatJsDate(Shift(event, -1)), FormatJsDate(Shift(event, 1)))
  }

  /** Lines 57-81: the stay window derived from the request's `eventDate`,
      or None when the handler throws. */
  function DeriveStayWindow(eventDate: string, year: int): (r: Option<Window>)
    ensures r.Some? <==> Contains(eventDate, ", ")
  {
    var ev := EventDay(eventDate, year);
    if ev.None? then None else Some(WindowOf(ev.value))
  }

  /** Check-in is exactly one calendar day before the event and check-out
      exactly one day after it, across month and year ends. */
  lemma StayWindowSpan(eventDate: string, year: int)
    requires EventDay(eventDate, year).Some? && EventDay(eventDate, year).value.At?
    ensures var ev := EventDay(eventDate, year).value.date;
      && DeriveStayWindow(eventDate, year)
         == Some(Window(FormatDate(AddDays(ev, -1)), FormatDate(AddDays(ev, 1))))
      && DayNumber(AddDays(ev, -1)) == DayNumber(ev) - 1
      && DayNumber(AddDays(ev, 1)) == DayNumber(ev) + 1
  {
    var ev := EventDay(eventDate, year).value.date;
    AddDaysNumber(ev, -1);
    AddDaysNumber(ev, 1);
  }

  /** Lines 102-106: the upstream JSON with `checkin` and `checkout`
      overwritten. `upstream` is the outcome of `r.json()` (None when the
      body is not JSON, which throws). A property assigned to an array is
      dropped when the array is serialised again; assigning one to null or a
      primitive throws (the module is in strict mode). */
  function StampWindow(w: Window, upstream: Option<JValue>): (r: Reply)
    ensures upstream.Some? && upstream.value.JObj? ==>
      && r.Respond? && r.status == 200
      && Get(r.body, "checkin") == Some(JStr(w.checkin))
      && Get(r.body, "checkout") == Some(JStr(w.checkout))
      && forall k :: k in upstream.value.fields && k != "checkin" && k != "checkout" ==>
           Get(r.body, k) == Some(upstream.value.fields[k])
    ensures upstream.None? || upstream.value.JNull? ==> r == NoReply
  {
    if upstream.None? then NoReply
    else
      match upstream.value
      case JObj(f) =>
        Respond(200, JObj(f["checkin" := JStr(w.checkin)]["checkout" := JStr(w.checkout)]))
      case JArr(_) => Respond(200, upstream.value)
      case _ => NoReply
  }

  /** The whole handler: the caller always receives the derived window,
      whatever the upstream response held under those names. */
  function PricingReply(eventDate: string, year: int, upstream: Option<JValue>): (r: Reply)
    ensures DeriveStayWindow(eventDate, year).None? ==> r == NoReply
    ensures EventDay(eventDate, year).Some? && upstream.Some? && upstream.value.JObj? ==>
      var w := WindowOf(EventDay(eventDate, year).value);
      && r.Respond? && r.status == 200
      && Get(r.body, "checkin") == Some(JStr(w.checkin))
      && Get(r.body, "checkout") == Some(JStr(w.checkout))
      && forall k :: k in upstream.value.fields && k != "checkin" && k != "checkout" ==>
           Get(r.body, k) == Some(upstream.value.fields[k])
  {
    match DeriveStayWindow(eventDate, year)
    case None => NoReply
    case Some(w) => StampWindow(w, upstream)
  }

  lemma OctoberFourth()
    ensures ParseMonthDay("October", Some("4"), 2025) == At(Date(2025, 10, 4))
  {
    assert MonthOf("October") == Some(10);
    assert ParseDigits("4") == 4 by {
      assert "4"[..0] == [];
    }
    MakeDayWithin(2025, 10, 4);
  }

  lemma Year2025()
    ensures IntToString(2025) == "2025"
  {
    assert NatToString(2025) == NatToString(202) + "5";
    assert NatToString(202) == NatToString(20) + "2";
  }

  lemma FormatOctober()
    ensures FormatDate(Date(2025, 10, 3)) == "2025-10-03"
    ensures FormatDate(Date(2025, 10, 5)) == "2025-10-05"
  {
    Year2025();
    PaddedOctober();
  }

  lemma PaddedOctober()
    ensures Pad2(NatToString(10)) == "10"
    ensures Pad2(NatToString(3)) == "03" && Pad2(NatToString(5)) == "05"
  {
    assert NatToString(10) == NatToString(1) + "0";
  }

  /** The date of the handler's own comment (backend/index.js:56): the
      tokens "October" and "4" of "Saturday, October 4", in 2025, give a
      stay from 3 to 5 October 2025. */
  lemma OctoberExample()
    ensures WindowOf(ParseMonthDay("October", Some("4"), 2025)) == Window("2025-10-03", "2025-10-05")
  {
    OctoberFourth();
    FormatOctober();
  }

  lemma DecemberThirtyFirst()
    ensures ParseMonthDay("December", Some("31"), 2025) == At(Date(2025, 12, 31))
  {
    assert MonthOf("December") == Some(12);
    assert ParseDigits("31") == 31 by {
      assert "31"[..1] == "3";
      assert "3"[..0] == [];
    }
    MakeDayWithin(2025, 12, 31);
  }

  lemma FormatYearEnd()
    ensures FormatDate(Date(2025, 12, 30)) == "2025-12-30"
    ensures FormatDate(Date(2026, 1, 1)) == "2026-01-01"
  {
    Year2025();
    Year2026();
    PaddedYearEnd();
  }

  lemma Year2026()
    ensures IntToString(2026) == "2026"
  {
    assert NatToString(2026) == NatToString(202) + "6";
    assert NatToString(202) == NatToString(20) + "2";
  }

  lemma PaddedYearEnd()
    ensures Pad2(NatToString(12)) == "12" && Pad2(NatToString(30)) == "30"
    ensures Pad2(NatToString(1)) == "01"
  {
    assert NatToString(12) == NatToString(1) + "2";
    assert NatToString(30) == NatToString(3) + "0";
  }

  /** An event on New Year's Eve checks out in the following year. */
  lemma YearEndExample()
    ensures WindowOf(ParseMonthDay("December", Some("31"), 2025)) == Window("2025-12-30", "2026-01-01")
  {
    DecemberThirtyFirst();
    FormatYearEnd();
  }
}
