/** The TypeScript critter script: the same three readers as the Python
    scraper, over the DOM's raw `textContent`, trimmed the JavaScript way. */
module CritterScript {
  import opened Base
  import opened Strings
  import opened Types
  import opened Patterns
  import CritterParser

  // ---------------------------------------------------------------------
  // Schedule

  /** The trimmed `textContent` of each element. */
  function Trimmed(texts: seq<string>): (r: seq<string>)
    ensures |r| == |texts|
  {
    if texts == [] then [] else [JsTrim(texts[0])] + Trimmed(texts[1..])
  }

  /** Element `i` of `Trimmed` is the trim of text `i`. */
  lemma {:induction false} TrimmedAt(texts: seq<string>, i: nat)
    requires i < |texts|
    ensures Trimmed(texts)[i] == JsTrim(texts[i])
  {
    if i > 0 {
      TrimmedAt(texts[1..], i - 1);
    }
  }

  /** What one day's trimmed text becomes: "n/a" leaves the day out,
      "All day" is `true`, an empty text stores `undefined` (Absent) and any
      other text is kept. */
  function DayEntry(text: string): (r: Option<DayValue>)
    ensures r.None? <==> text == "n/a"
    ensures r.Some? ==> (r.value.Flag? <==> text == "All day")
    ensures r.Some? ==> (r.value == Absent <==> text == "")
    ensures r.Some? && r.value.Range? ==> r.value.text == text
  {
    if text == "n/a" then None
    else if text == "All day" then Some(Flag(true))
    else if text == "" then Some(Absent)
    else Some(Range(text))
  }

  /** The object holds exactly the days read from the trimmed texts of
      cells 3 to 2 + n. */
  predicate ReadsDays(texts: seq<string>, m: map<string, DayValue>, n: nat)
    requires n <= |DayKeys| && (n == 0 || n + 3 <= |texts|)
  {
    && (forall k :: k in m ==> exists i :: 0 <= i < n && DayKeys[i] == k)
    && (forall i :: 0 <= i < n ==>
          (DayKeys[i] in m <==> DayEntry(texts[i + 3]).Some?)
          && (DayKeys[i] in m ==> m[DayKeys[i]] == DayEntry(texts[i + 3]).value))
  }

  /** Reading day `n` extends what the first `n` days read. */
  lemma DayStep(texts: seq<string>, m: map<string, DayValue>, n: nat, m': map<string, DayValue>)
    requires n < |DayKeys| && n + 4 <= |texts|
    requires ReadsDays(texts, m, n) && CritterParser.NoFalseDay(m)
    requires m' == match DayEntry(texts[n + 3])
      case None => m
      case Some(v) => m[DayKeys[n] := v]
    ensures ReadsDays(texts, m', n + 1) && CritterParser.NoFalseDay(m')
  {
    forall i | 0 <= i < n
      ensures DayKeys[i] != DayKeys[n]
    {
      CritterParser.DayKeysDistinct(i, n);
    }
    forall k | k in m'
      ensures exists i :: 0 <= i < n + 1 && DayKeys[i] == k
    {
      if k !in m {
        assert DayKeys[n] == k;
      }
    }
    forall i | 0 <= i < n + 1
      ensures DayKeys[i] in m' <==> DayEntry(texts[i + 3]).Some?
      ensures DayKeys[i] in m' ==> m'[DayKeys[i]] == DayEntry(texts[i + 3]).value
    {
    }
  }

  /** The loop of `parseSchedule` over the cells' trimmed texts:
      `row.cells[index + 3]` is undefined past the row's end, and reading its
      `textContent` throws a TypeError. */
  method ReadSchedule(texts: seq<string>) returns (r: Result<map<string, DayValue>>)
    ensures r.Err? <==> |texts| < 10
    ensures r.Err? ==> r.error == TypeError
    ensures r.Ok? ==> ReadsDays(texts, r.value, |DayKeys|)
    ensures r.Ok? ==> CritterParser.NoFalseDay(r.value)
  {
    var schedule: map<string, DayValue> := map[];
    var i := 0;
    while i < |DayKeys|
      invariant 0 <= i <= |DayKeys|
      invariant i == 0 || i + 3 <= |texts|
      invariant ReadsDays(texts, schedule, i)
      invariant CritterParser.NoFalseDay(schedule)
    {
      if i + 3 >= |texts| {
        return Err(TypeError);
      }
      var day := DayKeys[i];
      var text := texts[i + 3];
      ghost var before := schedule;
      if text == "n/a" {
      } else if text == "All day" {
        schedule := schedule[day := Flag(true)];
      } else {
        schedule := schedule[day := if text == "" then Absent else Range(text)];
      }
      DayStep(texts, before, i, schedule);
      i := i + 1;
    }
    r := Ok(schedule);
  }

  /** `parseSchedule`: the days read from the trimmed cell texts. */
  method ParseSchedule(cells: seq<string>) returns (r: Result<map<string, DayValue>>)
    ensures r.Err? <==> |cells| < 10
    ensures r.Err? ==> r.error == TypeError
    ensures r.Ok? ==> ReadsDays(Trimmed(cells), r.value, |DayKeys|)
    ensures r.Ok? ==> CritterParser.NoFalseDay(r.value)
  {
    r := ReadSchedule(Trimmed(cells));
  }

  /** Days read from texts equal to the non-empty cells are the days the
      Python scraper reads from those cells. */
  lemma SameDays(texts: seq<string>, cells: seq<string>, m: map<string, DayValue>)
    requires |texts| == |cells| >= 10
    requires forall i :: 3 <= i < 10 ==> cells[i] != "" && texts[i] == cells[i]
    requires ReadsDays(texts, m, |DayKeys|)
    ensures CritterParser.ReadsDays(cells, m, |DayKeys|)
  {
    forall i | 3 <= i < 10
      ensures DayEntry(texts[i]) == CritterParser.DayEntry(cells[i])
    {
      assert texts[i] == cells[i] && cells[i] != "";
    }
  }

  /** On cells that are already trimmed and not empty, the script reads the
      schedule the Python scraper reads. */
  lemma SameScheduleAsScraper(cells: seq<string>, m: map<string, DayValue>)
    requires |cells| >= 10
    requires forall i :: 3 <= i < 10 ==> cells[i] != "" && Trimmed(cells)[i] == cells[i]
    requires ReadsDays(Trimmed(cells), m, |DayKeys|)
    ensures CritterParser.ReadsDays(cells, m, |DayKeys|)
  {
    SameDays(Trimmed(cells), cells, m);
  }

  // ---------------------------------------------------------------------
  // Food rewards and food lists

  /** `parseFoodRewards` over the links' trimmed texts: one reward per
      non-empty name; every reward carries the quantity matched in the whole
      cell's text, or none. */
  function FoodRewards(names: seq<string>, cellText: string): (r: seq<Reward>)
    ensures |r| <= |names|
    ensures forall k :: 0 <= k < |r| ==> r[k].quantity == QuantitySearch(cellText)
    ensures forall k :: 0 <= k < |r| ==> r[k].item != "" && r[k].item in names
  {
    if names == [] then []
    else
      var init := names[..|names| - 1];
      var name := names[|names| - 1];
      var rewards := FoodRewards(init, cellText);
      assert forall x :: x in init ==> x in names;
      if name == "" then rewards
      else rewards + [Reward(QuantitySearch(cellText), name)]
  }

  /** The rewards name, in order, exactly the non-empty names. */
  lemma {:induction false} RewardsFollowNames(names: seq<string>, cellText: string)
    ensures |FoodRewards(names, cellText)| == |CritterParser.NonEmptyNames(names)|
    ensures forall k :: 0 <= k < |FoodRewards(names, cellText)| ==>
      FoodRewards(names, cellText)[k].item == CritterParser.NonEmptyNames(names)[k]
  {
    if names != [] {
      RewardsFollowNames(names[..|names| - 1], cellText);
    }
  }

  /** The loop over the cell's links, on their trimmed texts; the pattern
      is matched afresh for each link, against the same text. */
  method ReadFoodRewards(names: seq<string>, cellText: string) returns (rewards: seq<Reward>)
    ensures rewards == FoodRewards(names, cellText)
  {
    rewards := [];
    var i := 0;
    while i < |names|
      invariant 0 <= i <= |names|
      invariant rewards == FoodRewards(names[..i], cellText)
    {
      assert names[..i + 1][..i] == names[..i];
      var name := names[i];
      if name != "" {
        var quantity := QuantitySearch(cellText);
        rewards := rewards + [Reward(quantity, name)];
      }
      i := i + 1;
    }
    assert names[..i] == names;
  }

  /** `parseFoodRewards`: the rewards of the links' trimmed texts. */
  method ParseFoodRewards(links: seq<string>, cellText: string) returns (rewards: seq<Reward>)
    ensures rewards == FoodRewards(Trimmed(links), cellText)
  {
    rewards := ReadFoodRewards(Trimmed(links), cellText);
  }

  /** One loop of `parseFoodItems`: the non-empty names, in order. */
  method ReadFoodNames(names: seq<string>) returns (found: seq<string>)
    ensures found == CritterParser.NonEmptyNames(names)
  {
    found := [];
    var i := 0;
    while i < |names|
      invariant 0 <= i <= |names|
      invariant found == CritterParser.NonEmptyNames(names[..i])
    {
      var name := names[i];
      assert CritterParser.NonEmptyNames(names[..i + 1]) == if name != "" then found + [name] else found by {
        assert names[..i + 1][..i] == names[..i];
      }
      if name != "" {
        found := found + [name];
      }
      i := i + 1;
    }
    assert names[..i] == names;
  }

  /** `parseFoodItems`: favourite and liked foods are both the non-empty
      trimmed link texts, each read by a loop of its own. */
  method ParseFoodItems(links: seq<string>) returns (fav: seq<string>, liked: seq<string>)
    ensures fav == CritterParser.NonEmptyNames(Trimmed(links))
    ensures liked == fav
  {
    var names := Trimmed(links);
    fav := ReadFoodNames(names);
    liked := ReadFoodNames(names);
  }
}
