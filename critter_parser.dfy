/** The Python critter scraper: the weekly schedule read from a schedule
    row, the food rewards and food lists of a type row, the clean text and
    location of a cell, and the lookup of a critter's type in the table of
    the fourteen critter kinds. A cell is represented by what the scraper
    asks of it: its stripped text, its first link and its first image. */
module CritterParser {
  import opened Base
  import opened Strings
  import opened Types
  import opened Patterns
  import TimeUtils

  const BaseUrl: string := "https://dreamlightvalleywiki.com"

  // ---------------------------------------------------------------------
  // Schedule

  /** What one day's cell text becomes: "n/a" leaves the day out, "All day"
      is `True`, and any other text is kept as it is. */
  function DayEntry(text: string): (r: Option<DayValue>)
    ensures r.None? <==> text == "n/a"
    ensures r.Some? ==> (r.value.Flag? <==> text == "All day")
    ensures r.Some? && !r.value.Flag? ==> r.value == Range(text)
  {
    if text == "n/a" then None
    else if text == "All day" then Some(Flag(true))
    else Some(Range(text))
  }

  /** No day of the dictionary is `False`. */
  predicate NoFalseDay(m: map<string, DayValue>) {
    forall k :: k in m ==> m[k] != Flag(false)
  }

  /** The dictionary holds exactly the days read from cells 3 to 9. */
  predicate ReadsDays(cells: seq<string>, m: map<string, DayValue>, n: nat)
    requires n <= |DayKeys| && (n == 0 || n + 3 <= |cells|)
  {
    && (forall k :: k in m ==> exists i :: 0 <= i < n && DayKeys[i] == k)
    && (forall i :: 0 <= i < n ==>
          (DayKeys[i] in m <==> DayEntry(cells[i + 3]).Some?)
          && (DayKeys[i] in m ==> m[DayKeys[i]] == DayEntry(cells[i + 3]).value))
  }

  /** The seven keys are distinct. */
  lemma DayKeysDistinct(i: nat, j: nat)
    requires i < j < |DayKeys|
    ensures DayKeys[i] != DayKeys[j]
  {
    assert DayKeys[i][0] != DayKeys[j][0] || DayKeys[i][1] != DayKeys[j][1];
  }

  /** Reading day `n` extends what the first `n` days read. */
  lemma DayStep(cells: seq<string>, m: map<string, DayValue>, n: nat, m': map<string, DayValue>)
    requires n < |DayKeys| && n + 4 <= |cells|
    requires ReadsDays(cells, m, n) && NoFalseDay(m)
    requires m' == match DayEntry(cells[n + 3])
      case None => m
      case Some(v) => m[DayKeys[n] := v]
    ensures ReadsDays(cells, m', n + 1) && NoFalseDay(m')
  {
    forall i | 0 <= i < n
      ensures DayKeys[i] != DayKeys[n]
    {
      DayKeysDistinct(i, n);
    }
    forall k | k in m'
      ensures exists i :: 0 <= i < n + 1 && DayKeys[i] == k
    {
      if k !in m {
        assert DayKeys[n] == k;
      }
    }
    forall i | 0 <= i < n + 1
      ensures DayKeys[i] in m' <==> DayEntry(cells[i + 3]).Some?
      ensures DayKeys[i] in m' ==> m'[DayKeys[i]] == DayEntry(cells[i + 3]).value
    {
    }
  }

  /** `parse_schedule`: the seven days read from the row's cells after the
      image, name and location cells; a row with fewer than ten cells raises
      IndexError. */
  method ParseSchedule(cells: seq<string>) returns (r: Result<map<string, DayValue>>)
    ensures r.Err? <==> |cells| < 10
    ensures r.Err? ==> r.error == IndexError
    ensures r.Ok? ==> ReadsDays(cells, r.value, |DayKeys|)
    ensures r.Ok? ==> NoFalseDay(r.value)
  {
    var schedule: map<string, DayValue> := map[];
    var i := 0;
    while i < |DayKeys|
      invariant 0 <= i <= |DayKeys|
      invariant i == 0 || i + 3 <= |cells|
      invariant ReadsDays(cells, schedule, i)
      invariant NoFalseDay(schedule)
    {
      if i + 3 >= |cells| {
        return Err(IndexError);
      }
      var day := DayKeys[i];
      var text := cells[i + 3];
      ghost var before := schedule;
      if text == "n/a" {
      } else if text == "All day" {
        schedule := schedule[day := Flag(true)];
      } else {
        schedule := schedule[day := Range(text)];
      }
      DayStep(cells, before, i, schedule);
      i := i + 1;
    }
    r := Ok(schedule);
  }

  /** A scraped schedule never hides a critter on a day chosen in the
      critter table: only `false` would. */
  lemma ScrapedScheduleKeepsEveryDay(m: map<string, DayValue>, day: string)
    requires NoFalseDay(m)
    ensures TimeUtils.GetIsAvailableOnDay(ScheduleOf(m), day)
  {
    var s := ScheduleOf(m);
    var key := Lower(day);
    if key in DayKeys {
      var i :| 0 <= i < |DayKeys| && DayKeys[i] == key;
      assert DayValueOf(s, key) == Days(s)[i];
    }
  }

  // ---------------------------------------------------------------------
  // Food rewards and food lists

  /** A reward's `nametemplate` span: the stripped text of its first link
      (None when it has none) and its own stripped text. */
  datatype RewardSpan = RewardSpan(linkText: Option<string>, text: string)

  /** The reward one span yields, quantity from its own text. */
  function RewardOf(span: RewardSpan): Option<Reward>
    requires span.linkText.Some?
  {
    if span.linkText.value == "" then None
    else Some(Reward(Some(QuantitySearch(span.text).GetOr("1")), span.linkText.value))
  }

  /** `parse_food_rewards` as a function of the spans: a span without a link
      raises AttributeError; spans with an empty name are skipped. */
  function FoodRewards(spans: seq<RewardSpan>): (r: Result<seq<Reward>>)
    ensures r.Err? ==> r.error == AttributeError
    ensures r.Ok? ==> |r.value| <= |spans|
  {
    if spans == [] then Ok([])
    else
      var init := spans[..|spans| - 1];
      var span := spans[|spans| - 1];
      match FoodRewards(init)
      case Err(e) => Err(e)
      case Ok(rewards) =>
        if span.linkText.None? then Err(AttributeError)
        else match RewardOf(span)
          case None => Ok(rewards)
          case Some(reward) => Ok(rewards + [reward])
  }

  /** The call fails exactly when some span has no link. */
  lemma {:induction false} FoodRewardsFails(spans: seq<RewardSpan>)
    ensures FoodRewards(spans).Err? <==> exists i :: 0 <= i < |spans| && spans[i].linkText.None?
  {
    if spans != [] {
      var init := spans[..|spans| - 1];
      FoodRewardsFails(init);
      assert forall i :: 0 <= i < |init| ==> init[i] == spans[i];
      if !FoodRewards(spans).Err? {
        forall i | 0 <= i < |spans|
          ensures spans[i].linkText.Some?
        {
          if i < |init| {
            assert init[i] == spans[i];
          }
        }
      }
    }
  }

  /** Every reward is a span's non-empty link text, with the quantity read
      from that span's text, "1" when it has none. */
  lemma {:induction false} RewardsComeFromSpans(spans: seq<RewardSpan>)
    ensures var r := FoodRewards(spans);
      r.Ok? ==> forall k :: 0 <= k < |r.value| ==>
        exists i :: 0 <= i < |spans| && spans[i].linkText == Some(r.value[k].item)
          && r.value[k].item != ""
          && r.value[k].quantity == Some(QuantitySearch(spans[i].text).GetOr("1"))
  {
    if spans != [] {
      var init := spans[..|spans| - 1];
      var last := |spans| - 1;
      RewardsComeFromSpans(init);
      var r := FoodRewards(spans);
      if r.Ok? {
        var rewards := FoodRewards(init).value;
        forall k | 0 <= k < |r.value|
          ensures exists i :: 0 <= i < |spans| && spans[i].linkText == Some(r.value[k].item)
                    && r.value[k].item != ""
                    && r.value[k].quantity == Some(QuantitySearch(spans[i].text).GetOr("1"))
        {
          if k < |rewards| {
            assert r.value[k] == rewards[k];
            var i :| 0 <= i < |init| && init[i].linkText == Some(rewards[k].item)
              && rewards[k].item != ""
              && rewards[k].quantity == Some(QuantitySearch(init[i].text).GetOr("1"));
            assert spans[i] == init[i];
          } else {
            assert r.value[k] == RewardOf(spans[last]).value;
          }
        }
      }
    }
  }

  /** With every name present, reward `i` is the one span `i` yields. */
  lemma {:induction false} RewardPerSpan(spans: seq<RewardSpan>)
    requires forall i :: 0 <= i < |spans| ==> spans[i].linkText.Some? && spans[i].linkText.value != ""
    ensures FoodRewards(spans).Ok? && |FoodRewards(spans).value| == |spans|
    ensures forall i :: 0 <= i < |spans| ==> RewardOf(spans[i]) == Some(FoodRewards(spans).value[i])
  {
    if spans != [] {
      var init := spans[..|spans| - 1];
      var last := spans[|spans| - 1];
      RewardPerSpan(init);
      assert forall i :: 0 <= i < |init| ==> init[i] == spans[i];
      var rewards := FoodRewards(init).value;
      var reward := RewardOf(last).value;
      assert FoodRewards(spans) == Ok(rewards + [reward]);
      forall i | 0 <= i < |spans|
        ensures RewardOf(spans[i]) == Some((rewards + [reward])[i])
      {
        if i < |init| {
          assert RewardOf(init[i]) == Some(rewards[i]);
        }
      }
    }
  }

  /** The link texts of spans that all have a link. */
  function LinkTexts(spans: seq<RewardSpan>): (r: seq<string>)
    requires forall i :: 0 <= i < |spans| ==> spans[i].linkText.Some?
    ensures |r| == |spans| && forall i :: 0 <= i < |spans| ==> spans[i].linkText == Some(r[i])
  {
    seq(|spans|, i requires 0 <= i < |spans| => spans[i].linkText.value)
  }

  /** When every span has a link, spans with an empty name are skipped and
      the rewards name exactly the non-empty link texts, in order. */
  lemma {:induction false} RewardsFollowNames(spans: seq<RewardSpan>)
    requires forall i :: 0 <= i < |spans| ==> spans[i].linkText.Some?
    ensures FoodRewards(spans).Ok?
    ensures |FoodRewards(spans).value| == |NonEmptyNames(LinkTexts(spans))|
    ensures forall k :: 0 <= k < |FoodRewards(spans).value| ==>
      FoodRewards(spans).value[k].item == NonEmptyNames(LinkTexts(spans))[k]
  {
    if spans != [] {
      var init := spans[..|spans| - 1];
      RewardsFollowNames(init);
      assert LinkTexts(spans)[..|spans| - 1] == LinkTexts(init);
    }
  }

  /** `parse_food_rewards`: the loop over the cell's spans. */
  method ParseFoodRewards(spans: seq<RewardSpan>) returns (r: Result<seq<Reward>>)
    ensures r == FoodRewards(spans)
  {
    var rewards: seq<Reward> := [];
    var i := 0;
    while i < |spans|
      invariant 0 <= i <= |spans|
      invariant FoodRewards(spans[..i]) == Ok(rewards)
    {
      var item := spans[i];
      assert spans[..i + 1][..i] == spans[..i];
      if item.linkText.None? {
        RewardsErrSticks(spans[..i + 1], spans);
        return Err(AttributeError);
      }
      var name := item.linkText.value;
      if name != "" {
        var found := QuantitySearch(item.text);
        var quantity := if found.Some? then found.value else "1";
        rewards := rewards + [Reward(Some(quantity), name)];
      }
      i := i + 1;
    }
    assert spans[..i] == spans;
    r := Ok(rewards);
  }

  /** A missing link among the first spans is the whole call's failure. */
  lemma {:induction false} RewardsErrSticks(prefix: seq<RewardSpan>, spans: seq<RewardSpan>)
    requires prefix <= spans && FoodRewards(prefix).Err?
    ensures FoodRewards(spans) == Err(AttributeError)
  {
    FoodRewardsFails(prefix);
    FoodRewardsFails(spans);
    var i :| 0 <= i < |prefix| && prefix[i].linkText.None?;
    assert spans[i] == prefix[i];
  }

  /** The non-empty names, in order. */
  function NonEmptyNames(names: seq<string>): (r: seq<string>)
    ensures |r| <= |names|
    ensures forall k :: 0 <= k < |r| ==> r[k] != ""
    ensures forall x :: x in r <==> x in names && x != ""
  {
    if names == [] then []
    else
      var init := NonEmptyNames(names[..|names| - 1]);
      var last := names[|names| - 1];
      assert names == names[..|names| - 1] + [last];
      if last != "" then init + [last] else init
  }

  /** `parse_food_items`: favourite and liked foods are read by two loops
      over the same links, so the two lists are equal. */
  method ParseFoodItems(links: seq<string>) returns (fav: seq<string>, liked: seq<string>)
    ensures fav == NonEmptyNames(links) && liked == NonEmptyNames(links)
    ensures fav == liked
  {
    fav := [];
    var i := 0;
    while i < |links|
      invariant 0 <= i <= |links|
      invariant fav == NonEmptyNames(links[..i])
    {
      assert links[..i + 1][..i] == links[..i];
      if links[i] != "" {
        fav := fav + [links[i]];
      }
      i := i + 1;
    }
    liked := [];
    var j := 0;
    while j < |links|
      invariant 0 <= j <= |links|
      invariant liked == NonEmptyNames(links[..j])
    {
      assert links[..j + 1][..j] == links[..j];
      if links[j] != "" {
        liked := liked + [links[j]];
      }
      j := j + 1;
    }
    assert links[..|links|] == links;
  }

  // ---------------------------------------------------------------------
  // Cell text and locations

  /** A cell's first link: its stripped text, and whether it sits inside a
      `sup` (a citation). */
  datatype LinkView = LinkView(text: string, inSup: bool)

  /** A cell: its first link, if any, and its stripped text. */
  datatype CellView = CellView(link: Option<LinkView>, text: string)

  /** `extract_clean_text`: the link's text unless the link is a citation,
      otherwise the cell's text with the citation markers removed and
      stripped. */
  function ExtractCleanText(cell: CellView): (r: string)
    ensures cell.link.Some? && !cell.link.value.inSup ==> r == cell.link.value.text
    ensures (cell.link.None? || cell.link.value.inSup) ==> r == PyStrip(RemoveCitations(cell.text))
  {
    if cell.link.Some? && !cell.link.value.inSup then cell.link.value.text
    else PyStrip(RemoveCitations(cell.text))
  }

  /** A name followed by citation markers reads as the name alone. */
  lemma CitedNameIsClean(name: string, digits: string, cite: LinkView)
    requires '[' !in name && (name == [] || (!IsPySpace(name[0]) && !IsPySpace(name[|name| - 1])))
    requires digits != [] && AllDigits(digits) && cite.inSup
    ensures ExtractCleanText(CellView(Some(cite), name + "[" + digits + "]")) == name
  {
    var text := name + "[" + digits + "]";
    assert RemoveCitations(text) == name by {
      assert text == name + "[" + digits + "]" + [];
      RemoveCitationsAround(name, digits, []);
      RemoveCitationsWithoutBracket(name);
    }
    assert PyStrip(name) == name;
  }

  /** An image's `src` attribute. */
  datatype ImgAttrs = ImgAttrs(src: Option<string>)

  /** A location cell: its text and link, and its first image. */
  datatype LocationCell = LocationCell(cell: CellView, img: Option<ImgAttrs>)

  datatype ScrapedLocation = ScrapedLocation(name: string, imageUrl: Option<string>)

  /** `extract_location`: None without a link or when the clean name is
      empty or "n/a"; otherwise the name, with the image's `src` after the
      base URL. An image without `src` raises KeyError. */
  function ExtractLocation(c: LocationCell): (r: Result<Option<ScrapedLocation>>)
    ensures c.cell.link.None? ==> r == Ok(None)
    ensures r == Ok(None) <==>
      c.cell.link.None? || ExtractCleanText(c.cell) == "" || ExtractCleanText(c.cell) == "n/a"
    ensures r.Err? <==> r != Ok(None) && c.img.Some? && c.img.value.src.None?
    ensures r.Err? ==> r.error == KeyError
    ensures r.Ok? && r.value.Some? ==>
      && r.value.value.name == ExtractCleanText(c.cell)
      && r.value.value.imageUrl == if c.img.Some? then Some(BaseUrl + c.img.value.src.value) else None
  {
    if c.cell.link.None? then Ok(None)
    else
      var name := ExtractCleanText(c.cell);
      if name == "" || name == "n/a" then Ok(None)
      else if c.img.None? then Ok(Some(ScrapedLocation(name, None)))
      else if c.img.value.src.None? then Err(KeyError)
      else Ok(Some(ScrapedLocation(name, Some(BaseUrl + c.img.value.src.value))))
  }

  // ---------------------------------------------------------------------
  // Critter kinds

  /** One entry of the critter type table: the kind, its plural, and the
      names of its variants. */
  datatype TypeEntry = TypeEntry(key: string, plural: string, types: seq<string>)

  const CrocodileKind := TypeEntry("Crocodile", "Crocodiles",
    ["Blue Crocodile", "Classic Crocodile", "Red Crocodile", "Pink Crocodile", "Golden Crocodile", "White Crocodile"])

  const SunbirdKind := TypeEntry("Sunbird", "Sunbirds",
    ["Emerald Sunbird", "Golden Sunbird", "Orchid Sunbird", "Red Sunbird", "Turquoise Sunbird"])

  const SquirrelKind := TypeEntry("Squirrel", "Squirrels",
    ["Classic Squirrel", "Red Squirrel", "White Squirrel", "Black Squirrel", "Gray Squirrel"])

  const RabbitKind := TypeEntry("Rabbit", "Rabbits",
    ["Classic Rabbit", "Brown Rabbit", "White Rabbit", "Black Rabbit", "Calico Rabbit"])

  const RavenKind := TypeEntry("Raven", "Ravens",
    ["Classic Raven", "Red Raven", "White Raven", "Brown Raven", "Blue Raven"])

  const SeaTurtleKind := TypeEntry("Sea Turtle", "Sea Turtles",
    ["Classic Sea Turtle", "Purple Sea Turtle", "White Sea Turtle", "Brown Sea Turtle", "Black Sea Turtle"])

  const FoxKind := TypeEntry("Fox", "Foxes",
    ["Classic Fox", "Red Fox", "White Fox", "Blue Fox", "Black Fox"])

  const RaccoonKind := TypeEntry("Raccoon", "Raccoons",
    ["Classic Raccoon", "Red Raccoon", "White Raccoon", "Blue Raccoon", "Black Raccoon"])

  const CapybaraKind := TypeEntry("Capybara", "Capybaras",
    ["Classic Capybara", "Red and White Striped Capybara", "Toon Capybara", "Gray Spotted Capybara", "Black and White Capybara", "Blue Striped Capybara"])

  const CobraKind := TypeEntry("Cobra", "Cobras",
    ["Classic Cobra", "Blue and Red Striped Cobra", "Green and White Striped Cobra", "Pink Spotted Cobra", "Toon Cobra", "Yellow and Purple Striped Cobra"])

  const MonkeyKind := TypeEntry("Monkey", "Monkeys",
    ["Classic Monkey", "Red and Beige Monkey", "Toon Monkey", "Black and Gray Monkey", "Black and Brown Monkey", "Beige Monkey"])

  const OwlKind := TypeEntry("Owl", "Owls",
    ["Brown Owl", "Dark Owl", "Light Owl", "Purple Owl"])

  const BabyDragonKind := TypeEntry("Baby Dragon", "Baby Dragons",
    ["Blue Baby Dragon", "Red Baby Dragon", "Green Baby Dragon", "Purple Baby Dragon"])

  const BabyPegasusKind := TypeEntry("Baby Pegasus", "Baby Pegasi",
    ["Blue Pegasus", "Peach Pegasus", "Pink Pegasus", "Yellow Pegasus"])

  /** The table, in its source order. */
  const CritterTypeMap: seq<TypeEntry> := [
    CrocodileKind, SunbirdKind, SquirrelKind, RabbitKind,
    RavenKind, SeaTurtleKind, FoxKind, RaccoonKind,
    CapybaraKind, CobraKind, MonkeyKind, OwlKind,
    BabyDragonKind, BabyPegasusKind
  ]

  /** The first entry, in table order, that lists `name` as a variant. */
  function KindOfVariant(entries: seq<TypeEntry>, name: string): (r: Option<string>)
    ensures r.Some? ==> exists i :: 0 <= i < |entries| && entries[i].key == r.value && name in entries[i].types
                          && forall j :: 0 <= j < i ==> name !in entries[j].types
    ensures r.None? <==> forall i :: 0 <= i < |entries| ==> name !in entries[i].types
  {
    if entries == [] then None
    else if name in entries[0].types then Some(entries[0].key)
    else
      var r := KindOfVariant(entries[1..], name);
      assert forall i :: 1 <= i < |entries| ==> entries[i] == entries[1..][i - 1];
      r
  }

  /** `get_critter_type`. */
  function GetCritterType(name: string): (r: Option<string>)
    ensures r.Some? ==> exists i :: 0 <= i < |CritterTypeMap| && CritterTypeMap[i].key == r.value
                          && name in CritterTypeMap[i].types
                          && forall j :: 0 <= j < i ==> name !in CritterTypeMap[j].types
    ensures r.None? <==> forall i :: 0 <= i < |CritterTypeMap| ==> name !in CritterTypeMap[i].types
  {
    KindOfVariant(CritterTypeMap, name)
  }

  /** Whether a type-table name names an entry: its kind or plural, ignoring
      case, or one of its variants exactly. */
  predicate NamesEntry(e: TypeEntry, name: string) {
    Lower(name) == Lower(e.key) || Lower(name) == Lower(e.plural) || name in e.types
  }

  /** The first entry, in table order, that the name names. */
  function KindOfTypeName(entries: seq<TypeEntry>, name: string): (r: Option<string>)
    ensures r.Some? ==> exists i :: 0 <= i < |entries| && entries[i].key == r.value && NamesEntry(entries[i], name)
                          && forall j :: 0 <= j < i ==> !NamesEntry(entries[j], name)
    ensures r.None? <==> forall i :: 0 <= i < |entries| ==> !NamesEntry(entries[i], name)
  {
    if entries == [] then None
    else if NamesEntry(entries[0], name) then Some(entries[0].key)
    else
      var r := KindOfTypeName(entries[1..], name);
      assert forall i :: 1 <= i < |entries| ==> entries[i] == entries[1..][i - 1];
      r
  }

  /** `get_critter_type_from_type_name`. */
  function GetCritterTypeFromTypeName(name: string): (r: Option<string>)
    ensures r.Some? ==> exists i :: 0 <= i < |CritterTypeMap| && CritterTypeMap[i].key == r.value
                          && NamesEntry(CritterTypeMap[i], name)
                          && forall j :: 0 <= j < i ==> !NamesEntry(CritterTypeMap[j], name)
    ensures r.None? <==> forall i :: 0 <= i < |CritterTypeMap| ==> !NamesEntry(CritterTypeMap[i], name)
  {
    KindOfTypeName(CritterTypeMap, name)
  }

  /** The first entry that lists a name decides its kind. */
  lemma FirstListingDecides(entries: seq<TypeEntry>, k: nat, name: string)
    requires k < |entries| && name in entries[k].types
    requires forall j :: 0 <= j < k ==> name !in entries[j].types
    ensures KindOfVariant(entries, name) == Some(entries[k].key)
  {
  }

  /** A variant name resolves to its kind. */
  lemma RedFoxIsAFox()
    ensures GetCritterType("Red Fox") == Some("Fox")
  {
    var name := "Red Fox";
    assert CritterTypeMap[6] == FoxKind && name == FoxKind.types[1];
    forall j | 0 <= j < 6 ensures name !in CritterTypeMap[j].types {
      assert forall t :: t in CritterTypeMap[j].types ==> |t| != |name|;
    }
    FirstListingDecides(CritterTypeMap, 6, name);
  }

  /** The first entry that a type-table heading names decides its kind. */
  lemma FirstNamedDecides(entries: seq<TypeEntry>, k: nat, name: string)
    requires k < |entries| && NamesEntry(entries[k], name)
    requires forall j :: 0 <= j < k ==> !NamesEntry(entries[j], name)
    ensures KindOfTypeName(entries, name) == Some(entries[k].key)
  {
  }

  /** A heading in lower case still names its kind through the plural. */
  lemma LowerCasePluralHeading()
    ensures GetCritterTypeFromTypeName("crocodiles") == Some("Crocodile")
  {
    assert CritterTypeMap[0] == CrocodileKind;
    assert Lower("crocodiles") == Lower(CrocodileKind.plural);
    FirstNamedDecides(CritterTypeMap, 0, "crocodiles");
  }
}
