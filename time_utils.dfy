/** The critter schedule arithmetic: 12-hour labels such as "9 PM" and
    24-hour numbers, ranges such as "9 AM to 5 PM", and whether a critter is
    out on a given day, at a given hour. */
module TimeUtils {
  import opened Base
  import opened Strings
  import opened Types

  /** The label "k AM" or "k PM". */
  function HourLabel(k: nat, meridiem: string): string {
    NatToString(k) + " " + meridiem
  }

  predicate IsMeridiem(m: string) {
    m == "AM" || m == "PM"
  }

  /** The 24-hour value of the 12-hour clock reading k AM/PM, for k in 1..12. */
  function To24(k: nat, meridiem: string): (h: nat)
    requires 1 <= k <= 12 && IsMeridiem(meridiem)
    ensures h < 24
    ensures meridiem == "AM" <==> h < 12
  {
    if meridiem == "AM" then (if k == 12 then 0 else k)
    else (if k == 12 then 12 else k + 12)
  }

  /** `convert24HourTo12Hour`: 23 becomes "11 PM". */
  function Convert24HourTo12Hour(hour: int): (r: string)
    ensures hour == 0 ==> r == HourLabel(12, "AM")
    ensures 1 <= hour <= 11 ==> r == HourLabel(hour, "AM")
    ensures hour == 12 ==> r == HourLabel(12, "PM")
    ensures 13 <= hour ==> r == HourLabel(hour - 12, "PM")
  {
    if hour == 0 then
      assert NatToString(12) == "12";
      "12 " + "AM"
    else
      var meridiem := if hour >= 12 then "PM" else "AM";
      var n := if hour > 12 then hour - 12 else hour;
      NumberToString(n) + " " + meridiem
  }

  /** `convert12HourTo24Hour`: "11 PM" becomes 23. The text before the first
      space goes through `parseInt`, so an unreadable label gives NaN. */
  function Convert12HourTo24Hour(hourText: string): (r: JsNumber)
  {
    var (time, meridiem) := SplitTwo(hourText, " ");
    var n := ParseInt(time);
    var n' := if meridiem == Some("AM") && n == Num(12) then Num(0) else n;
    if meridiem == Some("PM") && n' != Num(12) then Plus(n', 12) else n'
  }

  lemma LabelSplits(k: nat, meridiem: string)
    requires IsMeridiem(meridiem)
    ensures SplitTwo(HourLabel(k, meridiem), " ") == (NatToString(k), Some(meridiem))
  {
    SplitTwoByChar(NatToString(k), " ", meridiem, 0);
  }

  /** A 12-hour label converts to its 24-hour value. */
  lemma Convert12HourTo24HourOfLabel(k: nat, meridiem: string)
    requires 1 <= k <= 12 && IsMeridiem(meridiem)
    ensures Convert12HourTo24Hour(HourLabel(k, meridiem)) == Num(To24(k, meridiem))
  {
    LabelSplits(k, meridiem);
    ParseIntOfNatToString(k);
  }

  /** Every hour of the day survives the trip to a label and back. */
  lemma HourRoundTrip(h: int)
    requires 0 <= h < 24
    ensures Convert12HourTo24Hour(Convert24HourTo12Hour(h)) == Num(h)
  {
    var k := if h == 0 then 12 else if h <= 12 then h else h - 12;
    var meridiem := if h < 12 then "AM" else "PM";
    assert To24(k, meridiem) == h;
    var text := Convert24HourTo12Hour(h);
    assert text == HourLabel(k, meridiem);
    Convert12HourTo24HourOfLabel(k, meridiem);
  }

  /** Every well-formed label survives the trip to 24-hour time and back. */
  lemma LabelRoundTrip(k: nat, meridiem: string)
    requires 1 <= k <= 12 && IsMeridiem(meridiem)
    ensures Convert12HourTo24Hour(HourLabel(k, meridiem)).Num?
    ensures Convert24HourTo12Hour(Convert12HourTo24Hour(HourLabel(k, meridiem)).n) == HourLabel(k, meridiem)
  {
    Convert12HourTo24HourOfLabel(k, meridiem);
  }

  lemma MidnightAndNoon()
    ensures Convert12HourTo24Hour("12 AM") == Num(0)
    ensures Convert12HourTo24Hour("12 PM") == Num(12)
  {
    assert NatToString(12) == "12";
    assert HourLabel(12, "AM") == "12 AM";
    assert HourLabel(12, "PM") == "12 PM";
    Convert12HourTo24HourOfLabel(12, "AM");
    Convert12HourTo24HourOfLabel(12, "PM");
  }

  /** `parseTimeString`: the first " - " becomes " to ", the text is cut at
      " to " and each side is read as a 12-hour label. A text without " to "
      leaves the end side undefined, and reading it throws. */
  function ParseTimeString(timeString: string): (r: Result<(JsNumber, JsNumber)>)
    ensures var (start, end) := SplitTwo(ReplaceFirst(timeString, " - ", " to "), " to ");
      && (r.Err? <==> end.None?)
      && (r.Ok? ==> r.value == (Convert12HourTo24Hour(start), Convert12HourTo24Hour(end.value)))
  {
    var (start, end) := SplitTwo(ReplaceFirst(timeString, " - ", " to "), " to ");
    if end.None? then Err(TypeError)
    else
      var (startHour, startMeridiem) := SplitTwo(start, " ");
      var (endHour, endMeridiem) := SplitTwo(end.value, " ");
      var s0 := ParseInt(startHour);
      var e0 := ParseInt(endHour);
      var s1 := if startMeridiem == Some("PM") && s0 != Num(12) then Plus(s0, 12) else s0;
      var e1 := if endMeridiem == Some("PM") && e0 != Num(12) then Plus(e0, 12) else e0;
      var s2 := if startMeridiem == Some("AM") && s1 == Num(12) then Num(0) else s1;
      var e2 := if endMeridiem == Some("AM") && e1 == Num(12) then Num(0) else e1;
      Ok((s2, e2))
  }

  /** A range of two well-formed labels, joined by " to " or " - ", parses to
      their 24-hour values, both within 0..23. */
  lemma ParseWellFormedRange(k1: nat, m1: string, k2: nat, m2: string, sep: string)
    requires 1 <= k1 <= 12 && IsMeridiem(m1) && 1 <= k2 <= 12 && IsMeridiem(m2)
    requires sep == " to " || sep == " - "
    ensures ParseTimeString(HourLabel(k1, m1) + sep + HourLabel(k2, m2))
      == Ok((Num(To24(k1, m1)), Num(To24(k2, m2))))
    ensures 0 <= To24(k1, m1) < 24 && 0 <= To24(k2, m2) < 24
  {
    var a := HourLabel(k1, m1);
    var b := HourLabel(k2, m2);
    assert '-' !in a && '-' !in b && 't' !in a && 't' !in b by {
      assert AllDigits(NatToString(k1)) && AllDigits(NatToString(k2));
    }
    var rewritten := a + " to " + b;
    if sep == " - " {
      ReplaceFirstOf(a, " - ", b, " to ", 1);
    } else {
      assert '-' !in rewritten;
      NoOccurrenceWithout(rewritten, " - ", '-');
    }
    assert ReplaceFirst(a + sep + b, " - ", " to ") == rewritten;
    SplitTwoByChar(a, " to ", b, 1);
    Convert12HourTo24HourOfLabel(k1, m1);
    Convert12HourTo24HourOfLabel(k2, m2);
  }

  /** The hour argument of the availability checks: the string 'all-day' or
      a 24-hour number. */
  datatype HourSpec = AllDayHour | AtHour(h: int)

  /** `checkTime`: whether one day's schedule value admits the hour. */
  function CheckTime(v: DayValue, hour: HourSpec, minute: int): (r: Result<bool>)
    ensures hour.AllDayHour? ==> r == Ok(v == Flag(true))
    ensures hour.AtHour? && v.Flag? ==> r == Ok(v.b)
    ensures hour.AtHour? && v.Absent? ==> r == Err(TypeError)
    ensures hour.AtHour? && v.Range? ==> (r.Err? <==> ParseTimeString(v.text).Err?)
  {
    match hour
    case AllDayHour => Ok(v == Flag(true))
    case AtHour(h) =>
      match v
      case Flag(b) => Ok(b)
      case Absent => Err(TypeError)
      case Range(text) =>
        var hours :- ParseTimeString(text);
        Ok(Admits(hours.0, hours.1, h, minute))
  }

  /** The comparison at the end of `checkTime`, on JavaScript numbers: an end
      before the start is moved 24 hours on, and the end hour itself counts
      for any minute that is not negative. */
  predicate Admits(startHour: JsNumber, endHour: JsNumber, hour: int, minute: int) {
    var endToCompare := if Less(endHour, startHour) then Plus(endHour, 24) else endHour;
    LessEq(startHour, Num(hour))
    && (Less(Num(hour), endToCompare) || (endToCompare == Num(hour) && minute >= 0))
  }

  /** The window a parsed range stands for: from the start hour up to and
      including the end hour, the end moved to the next day when it comes
      before the start. */
  predicate InWindow(start: int, end: int, hour: int) {
    var end' := if end < start then end + 24 else end;
    start <= hour <= end'
  }

  /** For a range with readable hours, `checkTime` is the window test. */
  lemma CheckTimeIsWindow(text: string, start: int, end: int, hour: int, minute: int)
    requires ParseTimeString(text) == Ok((Num(start), Num(end)))
    requires minute >= 0
    ensures CheckTime(Range(text), AtHour(hour), minute) == Ok(InWindow(start, end, hour))
  {
    CheckTimeOfRange(text, Num(start), Num(end), hour, minute);
    AdmitsIsWindow(start, end, hour, minute);
  }

  /** On a range that parses, `checkTime` is the comparison of its hours. */
  lemma CheckTimeOfRange(text: string, start: JsNumber, end: JsNumber, hour: int, minute: int)
    requires ParseTimeString(text) == Ok((start, end))
    ensures CheckTime(Range(text), AtHour(hour), minute) == Ok(Admits(start, end, hour, minute))
  {
  }

  lemma AdmitsIsWindow(start: int, end: int, hour: int, minute: int)
    requires minute >= 0
    ensures Admits(Num(start), Num(end), hour, minute) == InWindow(start, end, hour)
  {
  }

  /** A negative minute leaves the end hour out of the window. */
  lemma CheckTimeNegativeMinute(text: string, start: int, end: int, hour: int, minute: int)
    requires ParseTimeString(text) == Ok((Num(start), Num(end)))
    requires minute < 0
    ensures CheckTime(Range(text), AtHour(hour), minute)
      == Ok(InWindow(start, end, hour) && hour != (if end < start then end + 24 else end))
  {
    CheckTimeOfRange(text, Num(start), Num(end), hour, minute);
    AdmitsWithNegativeMinute(start, end, hour, minute);
  }

  lemma AdmitsWithNegativeMinute(start: int, end: int, hour: int, minute: int)
    requires minute < 0
    ensures Admits(Num(start), Num(end), hour, minute)
      == (InWindow(start, end, hour) && hour != (if end < start then end + 24 else end))
  {
  }

  /** A range whose hours are not numbers admits no hour. */
  lemma CheckTimeOfNaN(text: string, start: JsNumber, end: JsNumber, hour: int, minute: int)
    requires ParseTimeString(text) == Ok((start, end))
    requires start.NaN? || end.NaN?
    ensures CheckTime(Range(text), AtHour(hour), minute) == Ok(false)
  {
    CheckTimeOfRange(text, start, end, hour, minute);
    AdmitsOfNaN(start, end, hour, minute);
  }

  lemma AdmitsOfNaN(start: JsNumber, end: JsNumber, hour: int, minute: int)
    requires start.NaN? || end.NaN?
    ensures !Admits(start, end, hour, minute)
  {
  }

  /** A window that wraps past midnight only admits the hours from its start
      to 23: the early-morning hours before its end are not in it. */
  lemma MidnightWrap(start: int, end: int, hour: int)
    requires 0 <= end < start && 0 <= hour < 24
    ensures InWindow(start, end, hour) <==> start <= hour
  {
  }

  /** The window the midnight branch of `checkTime` evidently means: for a
      range that ends before it starts, an hour before the start is an hour
      of the next day, so it is moved 24 hours on like the end. */
  predicate AdmitsIntended(start: int, end: int, hour: int, minute: int) {
    var end' := if end < start then end + 24 else end;
    var hour' := if end < start && hour < start then hour + 24 else hour;
    start <= hour' && (hour' < end' || (hour' == end' && minute >= 0))
  }

  /** `checkTime` with the corrected window; every other case as written. */
  function CheckTimeIntended(v: DayValue, hour: HourSpec, minute: int): (r: Result<bool>)
    ensures !(hour.AtHour? && v.Range?) ==> r == CheckTime(v, hour, minute)
    ensures hour.AtHour? && v.Range? ==> (r.Err? <==> ParseTimeString(v.text).Err?)
    ensures (hour.AtHour? && v.Range? && ParseTimeString(v.text).Ok?
             && (ParseTimeString(v.text).value.0.NaN? || ParseTimeString(v.text).value.1.NaN?))
            ==> r == Ok(false)
  {
    match hour
    case AllDayHour => Ok(v == Flag(true))
    case AtHour(h) =>
      match v
      case Flag(b) => Ok(b)
      case Absent => Err(TypeError)
      case Range(text) =>
        var hours :- ParseTimeString(text);
        if hours.0.Num? && hours.1.Num? then Ok(AdmitsIntended(hours.0.n, hours.1.n, h, minute))
        else Ok(false)
  }

  /** The corrected window of a range past midnight holds the hours from
      its start to 23 and those from 0 to its end. */
  lemma IntendedWrapWindow(start: int, end: int, hour: int, minute: int)
    requires 0 <= end < start <= 23 && 0 <= hour < 24 && minute >= 0
    ensures AdmitsIntended(start, end, hour, minute) <==> (start <= hour || hour <= end)
  {
  }

  /** On a range that does not wrap the correction changes nothing. */
  lemma IntendedAgreesWithoutWrap(start: int, end: int, hour: int, minute: int)
    requires start <= end
    ensures AdmitsIntended(start, end, hour, minute) == Admits(Num(start), Num(end), hour, minute)
  {
  }

  lemma OvernightIntendedExample()
    ensures CheckTimeIntended(Range("10 PM to 2 AM"), AtHour(23), 0) == Ok(true)
    ensures CheckTimeIntended(Range("10 PM to 2 AM"), AtHour(1), 0) == Ok(true)
    ensures CheckTimeIntended(Range("10 PM to 2 AM"), AtHour(3), 0) == Ok(false)
  {
    var text := "10 PM to 2 AM";
    assert HourLabel(10, "PM") + " to " + HourLabel(2, "AM") == text;
    ParseWellFormedRange(10, "PM", 2, "AM", " to ");
    IntendedWrapWindow(22, 2, 23, 0);
    IntendedWrapWindow(22, 2, 1, 0);
    IntendedWrapWindow(22, 2, 3, 0);
  }

  lemma DaytimeExample()
    ensures CheckTime(Range("9 AM to 5 PM"), AtHour(9), 0) == Ok(true)
    ensures CheckTime(Range("9 AM to 5 PM"), AtHour(17), 30) == Ok(true)
    ensures CheckTime(Range("9 AM to 5 PM"), AtHour(8), 59) == Ok(false)
    ensures CheckTime(Range("9 AM to 5 PM"), AtHour(18), 0) == Ok(false)
  {
    var text := "9 AM to 5 PM";
    assert HourLabel(9, "AM") + " to " + HourLabel(5, "PM") == text;
    ParseWellFormedRange(9, "AM", 5, "PM", " to ");
    CheckTimeIsWindow(text, 9, 17, 9, 0);
    CheckTimeIsWindow(text, 9, 17, 17, 30);
    CheckTimeIsWindow(text, 9, 17, 8, 59);
    CheckTimeIsWindow(text, 9, 17, 18, 0);
  }

  lemma OvernightExample()
    ensures CheckTime(Range("10 PM to 2 AM"), AtHour(23), 0) == Ok(true)
    ensures CheckTime(Range("10 PM to 2 AM"), AtHour(1), 0) == Ok(false)
  {
    var text := "10 PM to 2 AM";
    assert HourLabel(10, "PM") + " to " + HourLabel(2, "AM") == text;
    ParseWellFormedRange(10, "PM", 2, "AM", " to ");
    CheckTimeIsWindow(text, 22, 2, 23, 0);
    CheckTimeIsWindow(text, 22, 2, 1, 0);
  }

  /** `.some(checkTime)` over the present schedule values: the first value
      that admits the hour stops the search, and a throw on the way ends it. */
  function SomeDayPasses(values: seq<DayValue>, hour: HourSpec, minute: int): (r: Result<bool>)
    ensures r.Err? ==> exists i :: 0 <= i < |values| && CheckTime(values[i], hour, minute).Err?
    ensures (forall i :: 0 <= i < |values| ==> CheckTime(values[i], hour, minute).Ok?) ==>
      r == Ok(exists i :: 0 <= i < |values| && CheckTime(values[i], hour, minute) == Ok(true))
  {
    if values == [] then Ok(false)
    else
      var first :- CheckTime(values[0], hour, minute);
      if first then Ok(true)
      else
        var rest := SomeDayPasses(values[1..], hour, minute);
        assert forall i :: 1 <= i < |values| ==> values[i] == values[1..][i - 1];
        rest
  }

  /** `getIsAvailableOnDay`: only an explicit `false` rules the day out. */
  function GetIsAvailableOnDay(schedule: Schedule, day: string): (r: bool)
    ensures !r <==> DayValueOf(schedule, Lower(day)) == Flag(false)
  {
    match DayValueOf(schedule, Lower(day))
    case Flag(b) => b
    case _ => true
  }

  /** `getIsAvailableAtTime`: a day names the one value to check; without a
      day (the empty string) any present day will do. */
  function GetIsAvailableAtTime(schedule: Schedule, day: string, hour: HourSpec, minute: int): (r: Result<bool>)
    ensures day != "" ==> r == CheckTime(DayValueOf(schedule, Lower(day)), hour, minute)
    ensures day == "" &&
      (forall i :: 0 <= i < 7 && Days(schedule)[i] != Absent ==> CheckTime(Days(schedule)[i], hour, minute).Ok?)
      ==> r == Ok(exists i :: 0 <= i < 7 && Days(schedule)[i] != Absent && CheckTime(Days(schedule)[i], hour, minute) == Ok(true))
  {
    if day == "" then
      var values := ScheduleValues(schedule);
      assert forall v :: v in values <==> v in Days(schedule) && v != Absent;
      SomeDayPasses(values, hour, minute)
    else
      CheckTime(DayValueOf(schedule, Lower(day)), hour, minute)
  }
}
