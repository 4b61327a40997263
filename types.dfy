/** The records the tables display and the scrapers produce: ingredients,
    recipes whose ingredient slots are single ingredients or "one of" groups,
    critters with a weekly schedule, and the table sort state. */
module Types {
  import opened Base

  datatype Ingredient = Ingredient(
    id: int,
    name: string,
    imageUrl: string,
    ingredientType: string,
    isGeneric: bool)

  /** One entry of a recipe's ingredient list: a single ingredient, or an
      array of alternatives of which any one will do. */
  datatype Slot<T> = Single(item: T) | Group(members: seq<T>)

  datatype RecipeType = RecipeType(name: string, imageUrl: string)

  datatype Recipe = Recipe(
    id: int,
    imageUrl: string,
    name: string,
    recipeType: RecipeType,
    stars: int,
    energy: int,
    sellPrice: int,
    ingredients: seq<Slot<Ingredient>>,
    collection: string)

  datatype Location = Location(name: string, imageUrl: string)

  /** A day's entry in a critter schedule: the key is missing, a boolean
      (`true` is "all day", `false` is "not available") or a range text such as
      "9 AM to 5 PM". */
  datatype DayValue = Absent | Flag(b: bool) | Range(text: string)

  datatype Schedule = Schedule(
    sunday: DayValue,
    monday: DayValue,
    tuesday: DayValue,
    wednesday: DayValue,
    thursday: DayValue,
    friday: DayValue,
    saturday: DayValue)

  datatype Critter = Critter(
    id: int,
    name: string,
    imageUrl: string,
    critterType: string,
    location: Location,
    schedule: Schedule)

  /** The schedule's keys, in declaration order. */
  const DayKeys: seq<string> :=
    ["sunday", "monday", "tuesday", "wednesday", "thursday", "friday", "saturday"]

  /** The days in key order. */
  function Days(s: Schedule): (r: seq<DayValue>)
    ensures |r| == |DayKeys|
  {
    [s.sunday, s.monday, s.tuesday, s.wednesday, s.thursday, s.friday, s.saturday]
  }

  /** `schedule[key]`: a key that is not a day reads as missing. */
  function DayValueOf(s: Schedule, key: string): (r: DayValue)
    ensures forall i :: 0 <= i < |DayKeys| && DayKeys[i] == key ==> r == Days(s)[i]
    ensures key !in DayKeys ==> r == Absent
  {
    if key == "sunday" then s.sunday
    else if key == "monday" then s.monday
    else if key == "tuesday" then s.tuesday
    else if key == "wednesday" then s.wednesday
    else if key == "thursday" then s.thursday
    else if key == "friday" then s.friday
    else if key == "saturday" then s.saturday
    else Absent
  }

  function Present(days: seq<DayValue>): (r: seq<DayValue>)
    ensures forall i :: 0 <= i < |r| ==> r[i] != Absent && r[i] in days
    ensures forall i :: 0 <= i < |days| && days[i] != Absent ==> days[i] in r
  {
    if days == [] then []
    else if days[0] == Absent then Present(days[1..])
    else [days[0]] + Present(days[1..])
  }

  /** `Object.values(schedule)`: the values of the keys that are present. */
  function ScheduleValues(s: Schedule): (r: seq<DayValue>)
    ensures forall i :: 0 <= i < |r| ==> r[i] != Absent
    ensures forall key :: DayValueOf(s, key) != Absent ==> DayValueOf(s, key) in r
  {
    Present(Days(s))
  }

  /** The schedule object built from a dictionary of day keys; other keys
      are ignored and a missing key stays missing. */
  function ScheduleOf(m: map<string, DayValue>): (r: Schedule)
    ensures forall i :: 0 <= i < |DayKeys| ==>
      Days(r)[i] == (if DayKeys[i] in m then m[DayKeys[i]] else Absent)
  {
    var get := (k: string) => if k in m then m[k] else Absent;
    Schedule(get("sunday"), get("monday"), get("tuesday"), get("wednesday"),
             get("thursday"), get("friday"), get("saturday"))
  }

  /** What a column filter holds after `setFilterValue(text)`: the table
      drops a filter set to the empty string. */
  function TextFilter(text: string): (r: Option<string>)
    ensures r.GetOr("") == text
    ensures r.None? <==> text == ""
  {
    if text == "" then None else Some(text)
  }

  /** One entry of the table's sorting state. */
  datatype SortEntry = SortEntry(id: string, desc: bool)

  /** What `column.getIsSorted()` reports. */
  datatype ColumnSort = Unsorted | Ascending | Descending

  function SortOf(sorting: seq<SortEntry>, id: string): (r: ColumnSort)
    ensures r == Unsorted <==> forall i :: 0 <= i < |sorting| ==> sorting[i].id != id
  {
    if sorting == [] then Unsorted
    else if sorting[0].id == id then (if sorting[0].desc then Descending else Ascending)
    else SortOf(sorting[1..], id)
  }

  /** A food reward scraped from the critter tables: the quantity text and
      the item's name. */
  datatype Reward = Reward(quantity: Option<string>, item: string)
}
