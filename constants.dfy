/** The fixed option lists of the critter filters: the 24 hour labels of
    the hour select and the seven day names of the day select. */
module Constants {
  import opened Base
  import opened Strings
  import opened Types
  import opened TimeUtils

  const MeridiemAM: string := "AM"
  const MeridiemPM: string := "PM"

  /** The label of hour `i` as the option list's mapping function writes it. */
  function HourOption(i: nat): string {
    var meridiem := if i < 12 then MeridiemAM else MeridiemPM;
    var hour := if meridiem == MeridiemPM then i - 12 else i;
    if hour == 0 then "12 " + meridiem else NumberToString(hour) + " " + meridiem
  }

  /** The hour select's labels, "12 AM" to "11 PM". */
  function HourOptions(): (r: seq<string>)
    ensures |r| == 24
    ensures forall i :: 0 <= i < 24 ==> r[i] == Convert24HourTo12Hour(i)
  {
    assert NatToString(12) == "12";
    seq(24, i requires 0 <= i < 24 => HourOption(i))
  }

  const DayOptions: seq<string> :=
    ["Sunday", "Monday", "Tuesday", "Wednesday", "Thursday", "Friday", "Saturday"]

  /** Each option is the converter's label for its index. */
  lemma HourOptionsAreLabels(i: int)
    requires 0 <= i < 24
    ensures |HourOptions()| == 24
    ensures HourOptions()[i] == Convert24HourTo12Hour(i)
  {
    assert NatToString(12) == "12";
  }

  /** The hour select's path: each option converts back to its index. */
  lemma HourOptionsRoundTrip(i: int)
    requires 0 <= i < 24
    ensures Convert12HourTo24Hour(HourOptions()[i]) == Num(i)
  {
    HourOptionsAreLabels(i);
    HourRoundTrip(i);
  }

  lemma HourOptionsDistinct(i: int, j: int)
    requires 0 <= i < 24 && 0 <= j < 24 && i != j
    ensures HourOptions()[i] != HourOptions()[j]
  {
    HourOptionsRoundTrip(i);
    HourOptionsRoundTrip(j);
  }

  lemma MidnightAndNoonOptions()
    ensures HourOptions()[0] == "12 AM" && HourOptions()[12] == "12 PM"
  {
  }

  /** Any option names an hour of the day, and that hour's label is the option. */
  lemma HourOptionHour(option: string)
    requires option in HourOptions()
    ensures Convert12HourTo24Hour(option).Num?
    ensures 0 <= Convert12HourTo24Hour(option).n < 24
    ensures Convert24HourTo12Hour(Convert12HourTo24Hour(option).n) == option
  {
    var i :| 0 <= i < 24 && HourOptions()[i] == option;
    HourOptionsRoundTrip(i);
    HourOptionsAreLabels(i);
  }

  /** The day names in schedule order; lower-cased, each is its schedule key. */
  lemma DayOptionsAreKeys(i: int)
    requires 0 <= i < 7
    ensures |DayOptions| == |DayKeys| == 7
    ensures Lower(DayOptions[i]) == DayKeys[i]
  {
  }
}
