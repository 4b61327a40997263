/** The critter table: the location and schedule column filters, the option
    lists of its menus, and the state behind the type, location, hour and
    day selects, the "Available Now" button and "Clear filters". */
module CrittersTable {
  import opened Base
  import opened Strings
  import opened Collections
  import opened Types
  import opened TimeUtils
  import opened Constants

  // ---------------------------------------------------------------------
  // Column functions

  /** The location column's `filterFn`: a falsy value lets every critter
      through, any other value must equal the location's name. */
  function LocationFilter(critter: Critter, filterValue: Option<string>): (r: bool)
    ensures (filterValue.None? || filterValue.value == "") ==> r
    ensures filterValue.Some? && filterValue.value != "" ==> (r <==> critter.location.name == filterValue.value)
  {
    if filterValue.None? || filterValue.value == "" then true
    else critter.location.name == filterValue.value
  }

  /** The day of a schedule criterion: never set (undefined), "any day"
      (null), or a day name. */
  datatype DayChoice = DayUnset | DayAll | DayName(name: string)

  /** The hour of a schedule criterion: never set (undefined), "any hour"
      (null), 'all-day', or a 24-hour number. */
  datatype HourChoice = HourUnset | HourAll | HourAllDay | HourAt(h: int)

  /** The first element of the schedule column's filter value. */
  datatype Criterion = Criterion(day: DayChoice, hour: HourChoice, minute: int)

  /** The day as the filter passes it on: the name, or a falsy value. */
  function DayText(day: DayChoice): string {
    if day.DayName? then day.name else ""
  }

  /** Whether the hour counts as set: hour 0 does, though it is falsy. */
  predicate HourIsSet(hour: HourChoice) {
    hour.HourAt? || hour.HourAllDay?
  }

  function SpecOf(hour: HourChoice): HourSpec
    requires HourIsSet(hour)
  {
    if hour.HourAllDay? then AllDayHour else AtHour(hour.h)
  }

  /** The schedule column's `filterFn`: the day test when a day is named,
      the time test when an hour is set (on the named day, or on any day),
      both when both are. The time test can throw on a schedule value it
      cannot parse, whatever the day test gave. */
  function ScheduleFilter(critter: Critter, filterValue: Option<Criterion>): (r: Result<bool>)
    ensures filterValue.None? ==> r == Ok(true)
    ensures filterValue.Some? && !HourIsSet(filterValue.value.hour) ==>
      r == Ok(DayText(filterValue.value.day) == "" || GetIsAvailableOnDay(critter.schedule, DayText(filterValue.value.day)))
    ensures filterValue.Some? && HourIsSet(filterValue.value.hour) && DayText(filterValue.value.day) == "" ==>
      r == GetIsAvailableAtTime(critter.schedule, "", SpecOf(filterValue.value.hour), filterValue.value.minute)
  {
    match filterValue
    case None => Ok(true)
    case Some(c) =>
      var day := DayText(c.day);
      var onDay := if day == "" then true else GetIsAvailableOnDay(critter.schedule, day);
      if HourIsSet(c.hour) then
        var atTime :- GetIsAvailableAtTime(critter.schedule, day, SpecOf(c.hour), c.minute);
        Ok(onDay && atTime)
      else
        Ok(onDay)
  }

  /** With a day named and an hour set, the day test adds nothing: a day
      marked unavailable already fails the time test. */
  lemma TimeTestSubsumesDayTest(critter: Critter, c: Criterion)
    requires DayText(c.day) != "" && HourIsSet(c.hour)
    ensures ScheduleFilter(critter, Some(c))
      == CheckTime(DayValueOf(critter.schedule, Lower(DayText(c.day))), SpecOf(c.hour), c.minute)
  {
  }

  /** Midnight is a real hour: a criterion at hour 0 runs the time test. */
  lemma MidnightIsAnHour(critter: Critter, day: DayChoice, minute: int)
    ensures HourIsSet(HourAt(0))
    ensures ScheduleFilter(critter, Some(Criterion(day, HourAt(0), minute))).Ok? ==>
      GetIsAvailableAtTime(critter.schedule, DayText(day), AtHour(0), minute).Ok?
  {
  }

  /** What "Available Now" filters by: today's schedule entry, tested at the
      current hour and minute. */
  lemma AvailableNowChecksToday(critter: Critter, i: int, hour: int, minute: int)
    requires 0 <= i < 7
    ensures ScheduleFilter(critter, Some(Criterion(DayName(DayOptions[i]), HourAt(hour), minute)))
      == CheckTime(Days(critter.schedule)[i], AtHour(hour), minute)
  {
    DayOptionsAreKeys(i);
    TimeTestSubsumesDayTest(critter, Criterion(DayName(DayOptions[i]), HourAt(hour), minute));
  }

  /** On a range with readable hours and a minute that is not negative, the
      schedule filter on a named day is the window test. */
  lemma ScheduleFilterIsWindow(critter: Critter, c: Criterion, text: string, start: int, end: int)
    requires DayText(c.day) != "" && c.hour.HourAt? && c.minute >= 0
    requires DayValueOf(critter.schedule, Lower(DayText(c.day))) == Range(text)
    requires ParseTimeString(text) == Ok((Num(start), Num(end)))
    ensures ScheduleFilter(critter, Some(c)) == Ok(InWindow(start, end, c.hour.h))
  {
    TimeTestSubsumesDayTest(critter, c);
    CheckTimeIsWindow(text, start, end, c.hour.h, c.minute);
  }

  /** A schedule with no day marked unavailable passes every day-only
      criterion. */
  lemma NoUnavailableDayPassesDayOnly(critter: Critter, c: Criterion)
    requires forall i :: 0 <= i < 7 ==> Days(critter.schedule)[i] != Flag(false)
    requires !HourIsSet(c.hour)
    ensures ScheduleFilter(critter, Some(c)) == Ok(true)
  {
    var key := Lower(DayText(c.day));
    if key in DayKeys {
      var i :| 0 <= i < |DayKeys| && DayKeys[i] == key;
      assert DayValueOf(critter.schedule, key) == Days(critter.schedule)[i];
    }
  }

  // ---------------------------------------------------------------------
  // Menu option lists

  function LocationNames(critters: seq<Critter>): (r: seq<string>)
    ensures |r| == |critters| && forall k :: 0 <= k < |critters| ==> r[k] == critters[k].location.name
  {
    seq(|critters|, k requires 0 <= k < |critters| => critters[k].location.name)
  }

  function TypeNames(critters: seq<Critter>): (r: seq<string>)
    ensures |r| == |critters| && forall k :: 0 <= k < |critters| ==> r[k] == critters[k].critterType
  {
    seq(|critters|, k requires 0 <= k < |critters| => critters[k].critterType)
  }

  /** The location select: each location once, in order of first appearance. */
  function LocationOptions(critters: seq<Critter>): (r: seq<string>)
    ensures NoDuplicates(r)
    ensures forall k :: 0 <= k < |critters| ==> critters[k].location.name in r
    ensures forall i :: 0 <= i < |r| ==> exists k :: 0 <= k < |critters| && critters[k].location.name == r[i]
    ensures forall i, j :: 0 <= i < j < |r| ==>
      r[i] in LocationNames(critters) && r[j] in LocationNames(critters)
      && FirstIndex(LocationNames(critters), r[i]) < FirstIndex(LocationNames(critters), r[j])
  {
    var names := LocationNames(critters);
    var r := Distinct(names);
    assert forall i :: 0 <= i < |r| ==> r[i] in names;
    DistinctKeepsFirstOccurrenceOrder(names);
    r
  }

  /** The type select: each critter type once, in order of first appearance. */
  function TypeOptions(critters: seq<Critter>): (r: seq<string>)
    ensures NoDuplicates(r)
    ensures forall k :: 0 <= k < |critters| ==> critters[k].critterType in r
    ensures forall i :: 0 <= i < |r| ==> exists k :: 0 <= k < |critters| && critters[k].critterType == r[i]
    ensures forall i, j :: 0 <= i < j < |r| ==>
      r[i] in TypeNames(critters) && r[j] in TypeNames(critters)
      && FirstIndex(TypeNames(critters), r[i]) < FirstIndex(TypeNames(critters), r[j])
  {
    var names := TypeNames(critters);
    var r := Distinct(names);
    assert forall i :: 0 <= i < |r| ==> r[i] in names;
    DistinctKeepsFirstOccurrenceOrder(names);
    r
  }

  // ---------------------------------------------------------------------
  // Table state

  /** The column filters this table sets; None is an unset (or null) filter. */
  datatype Filters = Filters(
    name: Option<string>,
    critterType: Option<string>,
    location: Option<string>,
    schedule: Option<Criterion>)

  const NoFilters := Filters(None, None, None, None)

  /** The day a select handler carries over from the current criterion. */
  function KeptDay(schedule: Option<Criterion>): DayChoice {
    if schedule.Some? then schedule.value.day else DayUnset
  }

  /** The hour a select handler carries over from the current criterion. */
  function KeptHour(schedule: Option<Criterion>): HourChoice {
    if schedule.Some? then schedule.value.hour else HourUnset
  }

  /** `minute || 0`: the current minute, or 0 when there is none. */
  function KeptMinute(schedule: Option<Criterion>): int {
    if schedule.Some? then schedule.value.minute else 0
  }

  /** The value a menu select shows: 'all' after "Any ...", otherwise the
      filter value, or nothing. */
  function MenuSelectValue(isAll: bool, filter: Option<string>): string {
    if isAll then "all" else filter.GetOr("")
  }

  /** The value the hour select shows. */
  function HourSelectValue(schedule: Option<Criterion>): string {
    match KeptHour(schedule)
    case HourAll => "all"
    case HourAt(h) => Convert24HourTo12Hour(h)
    case HourAllDay => "all-day"
    case HourUnset => ""
  }

  /** The value the day select shows. */
  function DaySelectValue(schedule: Option<Criterion>): string {
    match KeptDay(schedule)
    case DayAll => "all"
    case DayName(n) => n
    case DayUnset => ""
  }

  /** A menu select's part of the state: its column filter and whether
      "Any ..." was chosen. */
  datatype MenuState = MenuState(filter: Option<string>, isAll: bool)

  /** What a menu select does with a value: the empty value and 'all' both
      unset the filter, and only 'all' records "any". */
  function MenuChoice(value: string): (r: MenuState)
    ensures MenuSelectValue(r.isAll, r.filter) == value
    ensures r.filter.Some? ==> r.filter.value != "" && r.filter.value != "all"
    ensures r.isAll ==> r.filter.None?
  {
    if value == "" then MenuState(None, false)
    else if value == "all" then MenuState(None, true)
    else MenuState(Some(value), false)
  }

  /** The values the hour select offers. */
  predicate IsHourSelectValue(value: string) {
    value == "" || value == "all" || value == "all-day" || value in HourOptions()
  }

  /** The criterion an hour select value leaves behind. */
  function HourChoiceOf(value: string): (r: HourChoice)
    requires IsHourSelectValue(value) && value != ""
    ensures r.HourAt? ==> 0 <= r.h < 24 && Convert24HourTo12Hour(r.h) == value
    ensures r.HourAll? <==> value == "all"
    ensures r.HourAllDay? <==> value == "all-day"
  {
    if value == "all" then HourAll
    else if value == "all-day" then HourAllDay
    else
      HourOptionHour(value);
      HourAt(Convert12HourTo24Hour(value).n)
  }

  /** The invariant the handlers keep: an "any" flag goes with an unset
      filter, a menu filter is never the empty or the 'all' value, and a
      criterion has an hour of the day, a named day and a minute that is
      not negative. */
  predicate ValidFilters(f: Filters, typeIsAll: bool, locationIsAll: bool) {
    && (typeIsAll ==> f.critterType.None?)
    && (locationIsAll ==> f.location.None?)
    && (f.critterType.Some? ==> f.critterType.value != "" && f.critterType.value != "all")
    && (f.location.Some? ==> f.location.value != "" && f.location.value != "all")
    && (f.schedule.Some? ==>
          && (f.schedule.value.hour.HourAt? ==> 0 <= f.schedule.value.hour.h < 24)
          && (f.schedule.value.day.DayName? ==> f.schedule.value.day.name != "")
          && f.schedule.value.minute >= 0)
  }

  class Table {
    var sorting: seq<SortEntry>
    var columnFilters: Filters
    var searchTerm: string
    var typeFilterIsAll: bool
    var locationFilterIsAll: bool

    predicate Valid()
      reads this
    {
      ValidFilters(columnFilters, typeFilterIsAll, locationFilterIsAll)
    }

    constructor()
      ensures Valid()
      ensures sorting == [] && columnFilters == NoFilters && searchTerm == ""
      ensures !typeFilterIsAll && !locationFilterIsAll
    {
      sorting := [];
      columnFilters := NoFilters;
      searchTerm := "";
      typeFilterIsAll := false;
      locationFilterIsAll := false;
    }

    function TypeSelectValue(): string
      reads this
    {
      MenuSelectValue(typeFilterIsAll, columnFilters.critterType)
    }

    function LocationSelectValue(): string
      reads this
    {
      MenuSelectValue(locationFilterIsAll, columnFilters.location)
    }

    /** A keystroke in the search box: the box shows the text at once. */
    method EditSearch(value: string)
      requires Valid()
      modifies this
      ensures Valid()
      ensures searchTerm == value
      ensures columnFilters == old(columnFilters) && sorting == old(sorting)
      ensures typeFilterIsAll == old(typeFilterIsAll) && locationFilterIsAll == old(locationFilterIsAll)
    {
      searchTerm := value;
    }

    /** The debounced search callback firing: the name filter takes the value. */
    method ApplySearch(value: string)
      requires Valid()
      modifies this
      ensures Valid()
      ensures columnFilters == old(columnFilters).(name := TextFilter(value))
      ensures searchTerm == old(searchTerm) && sorting == old(sorting)
      ensures typeFilterIsAll == old(typeFilterIsAll) && locationFilterIsAll == old(locationFilterIsAll)
    {
      var filter := if value == "" then None else Some(value);
      columnFilters := columnFilters.(name := filter);
    }

    /** The type select's `onValueChange`; the select then shows the value
        chosen. */
    method SelectType(value: string)
      requires Valid()
      modifies this
      ensures Valid()
      ensures MenuState(columnFilters.critterType, typeFilterIsAll) == MenuChoice(value)
      ensures TypeSelectValue() == value
      ensures columnFilters == old(columnFilters).(critterType := columnFilters.critterType)
      ensures locationFilterIsAll == old(locationFilterIsAll)
      ensures searchTerm == old(searchTerm) && sorting == old(sorting)
    {
      if value == "" {
        columnFilters := columnFilters.(critterType := None);
        typeFilterIsAll := false;
      } else if value == "all" {
        columnFilters := columnFilters.(critterType := None);
        typeFilterIsAll := true;
      } else {
        columnFilters := columnFilters.(critterType := Some(value));
        typeFilterIsAll := false;
      }
    }

    /** The location select's `onValueChange`. */
    method SelectLocation(value: string)
      requires Valid()
      modifies this
      ensures Valid()
      ensures MenuState(columnFilters.location, locationFilterIsAll) == MenuChoice(value)
      ensures LocationSelectValue() == value
      ensures columnFilters == old(columnFilters).(location := columnFilters.location)
      ensures typeFilterIsAll == old(typeFilterIsAll)
      ensures searchTerm == old(searchTerm) && sorting == old(sorting)
    {
      if value == "" {
        columnFilters := columnFilters.(location := None);
        locationFilterIsAll := false;
      } else if value == "all" {
        columnFilters := columnFilters.(location := None);
        locationFilterIsAll := true;
      } else {
        columnFilters := columnFilters.(location := Some(value));
        locationFilterIsAll := false;
      }
    }

    /** The hour select's `onValueChange`: the empty value drops the whole
        criterion, any other keeps the day and the minute (0 if none); the
        select then shows the value chosen. */
    method SelectHour(value: string)
      requires Valid() && IsHourSelectValue(value)
      modifies this
      ensures Valid()
      ensures value == "" ==> columnFilters.schedule.None?
      ensures value != "" ==>
        columnFilters.schedule == Some(Criterion(KeptDay(old(columnFilters.schedule)), HourChoiceOf(value), KeptMinute(old(columnFilters.schedule))))
      ensures HourSelectValue(columnFilters.schedule) == value
      ensures columnFilters == old(columnFilters).(schedule := columnFilters.schedule)
      ensures typeFilterIsAll == old(typeFilterIsAll) && locationFilterIsAll == old(locationFilterIsAll)
      ensures searchTerm == old(searchTerm) && sorting == old(sorting)
    {
      var current := columnFilters.schedule;
      if value == "" {
        columnFilters := columnFilters.(schedule := None);
      } else {
        var day := if current.Some? then current.value.day else DayUnset;
        var minute := if current.Some? then current.value.minute else 0;
        var hour: HourChoice;
        if value == "all" {
          hour := HourAll;
        } else if value == "all-day" {
          hour := HourAllDay;
        } else {
          var n := Convert12HourTo24Hour(value);
          HourOptionHour(value);
          hour := HourAt(n.n);
        }
        columnFilters := columnFilters.(schedule := Some(Criterion(day, hour, minute)));
      }
    }

    /** The day select's `onValueChange`: the empty value drops the whole
        criterion, any other keeps the hour and the minute (0 if none). */
    method SelectDay(value: string)
      requires Valid()
      modifies this
      ensures Valid()
      ensures value == "" ==> columnFilters.schedule.None?
      ensures value == "all" ==>
        columnFilters.schedule == Some(Criterion(DayAll, KeptHour(old(columnFilters.schedule)), KeptMinute(old(columnFilters.schedule))))
      ensures value != "" && value != "all" ==>
        columnFilters.schedule == Some(Criterion(DayName(value), KeptHour(old(columnFilters.schedule)), KeptMinute(old(columnFilters.schedule))))
      ensures DaySelectValue(columnFilters.schedule) == value
      ensures columnFilters == old(columnFilters).(schedule := columnFilters.schedule)
      ensures typeFilterIsAll == old(typeFilterIsAll) && locationFilterIsAll == old(locationFilterIsAll)
      ensures searchTerm == old(searchTerm) && sorting == old(sorting)
    {
      var current := columnFilters.schedule;
      if value == "" {
        columnFilters := columnFilters.(schedule := None);
      } else {
        var hour := if current.Some? then current.value.hour else HourUnset;
        var minute := if current.Some? then current.value.minute else 0;
        var day := if value == "all" then DayAll else DayName(value);
        columnFilters := columnFilters.(schedule := Some(Criterion(day, hour, minute)));
      }
    }

    /** "Available Now": the criterion becomes the clock's weekday, hour and
        minute, which the caller reads from the clock. */
    method AvailableNow(day: string, hour: int, minute: int)
      requires Valid()
      requires day in DayOptions && 0 <= hour < 24 && 0 <= minute < 60
      modifies this
      ensures Valid()
      ensures columnFilters == old(columnFilters).(schedule := Some(Criterion(DayName(day), HourAt(hour), minute)))
      ensures DaySelectValue(columnFilters.schedule) == day
      ensures HourSelectValue(columnFilters.schedule) == HourOptions()[hour]
      ensures typeFilterIsAll == old(typeFilterIsAll) && locationFilterIsAll == old(locationFilterIsAll)
      ensures searchTerm == old(searchTerm) && sorting == old(sorting)
    {
      HourOptionsAreLabels(hour);
      columnFilters := columnFilters.(schedule := Some(Criterion(DayName(day), HourAt(hour), minute)));
    }

    /** "Clear filters". */
    method ClearFilters()
      modifies this
      ensures Valid()
      ensures searchTerm == "" && columnFilters == NoFilters && sorting == []
      ensures !typeFilterIsAll && !locationFilterIsAll
      ensures TypeSelectValue() == "" && LocationSelectValue() == ""
      ensures HourSelectValue(columnFilters.schedule) == "" && DaySelectValue(columnFilters.schedule) == ""
    {
      searchTerm := "";
      columnFilters := NoFilters;
      sorting := [];
      typeFilterIsAll := false;
      locationFilterIsAll := false;
    }

    /** A click on a sortable column's header; returns the requested order. */
    method HeaderClick(column: string) returns (desc: bool)
      requires Valid()
      modifies this
      ensures Valid()
      ensures desc <==> old(SortOf(sorting, column)) == Ascending
      ensures |sorting| == 1 && sorting[0] == SortEntry(column, desc)
      ensures columnFilters == old(columnFilters) && searchTerm == old(searchTerm)
      ensures typeFilterIsAll == old(typeFilterIsAll) && locationFilterIsAll == old(locationFilterIsAll)
    {
      desc := SortOf(sorting, column) == Ascending;
      sorting := [SortEntry(column, desc)];
    }
  }

  /** In any state the handlers can reach, a named day's readable range is
      tested as its window: the minute is never negative there. */
  lemma ValidCriterionIsWindow(f: Filters, typeIsAll: bool, locationIsAll: bool, critter: Critter, text: string, start: int, end: int)
    requires ValidFilters(f, typeIsAll, locationIsAll)
    requires f.schedule.Some? && f.schedule.value.day.DayName? && f.schedule.value.hour.HourAt?
    requires DayValueOf(critter.schedule, Lower(f.schedule.value.day.name)) == Range(text)
    requires ParseTimeString(text) == Ok((Num(start), Num(end)))
    ensures ScheduleFilter(critter, f.schedule) == Ok(InWindow(start, end, f.schedule.value.hour.h))
  {
    ScheduleFilterIsWindow(critter, f.schedule.value, text, start, end);
  }
}
