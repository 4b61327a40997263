/** The recipe catalogue table: its column filters, the ingredient-count
    sort, the generic-ingredient lookups, the option lists of its menus, and
    the state its event handlers update. */
module RecipesTable {
  import opened Base
  import opened Strings
  import opened Collections
  import opened Types
  import opened Combobox

  // ---------------------------------------------------------------------
  // Column functions

  /** The type column's `filterFn`: a falsy value lets every recipe through,
      any other value must equal the type's name. */
  function TypeFilter(recipe: Recipe, filterValue: Option<string>): (r: bool)
    ensures (filterValue.None? || filterValue.value == "") ==> r
    ensures filterValue.Some? && filterValue.value != "" ==> (r <==> recipe.recipeType.name == filterValue.value)
  {
    if filterValue.None? || filterValue.value == "" then true
    else recipe.recipeType.name == filterValue.value
  }

  /** The reference meaning of "the slot provides the ingredient": a single
      ingredient of that name, or a group with a member of that name. */
  predicate Provides(slot: Slot<Ingredient>, name: string) {
    match slot
    case Single(i) => i.name == name
    case Group(members) => exists k :: 0 <= k < |members| && members[k].name == name
  }

  /** `group.some(i => i.name === name)`. */
  function GroupHas(members: seq<Ingredient>, name: string): (r: bool)
    ensures r <==> exists k :: 0 <= k < |members| && members[k].name == name
  {
    if members == [] then false
    else members[0].name == name || GroupHas(members[1..], name)
  }

  /** `ingredients.some(...)`: some slot provides the ingredient. */
  function SomeSlotHas(slots: seq<Slot<Ingredient>>, name: string): (r: bool)
    ensures r <==> exists k :: 0 <= k < |slots| && Provides(slots[k], name)
  {
    if slots == [] then false
    else
      var first := match slots[0]
        case Single(i) => i.name == name
        case Group(members) => GroupHas(members, name);
      first || SomeSlotHas(slots[1..], name)
  }

  /** `chosen.every(...)`: every chosen name is provided by some slot. */
  function EveryChosenProvided(chosen: seq<string>, slots: seq<Slot<Ingredient>>): (r: bool)
    ensures r <==> forall j :: 0 <= j < |chosen| ==> exists k :: 0 <= k < |slots| && Provides(slots[k], chosen[j])
  {
    if chosen == [] then true
    else SomeSlotHas(slots, chosen[0]) && EveryChosenProvided(chosen[1..], slots)
  }

  /** The ingredients column's `filterFn`. */
  function IngredientsFilter(recipe: Recipe, filterValue: Option<seq<string>>): (r: bool)
    ensures (filterValue.None? || |filterValue.value| == 0) ==> r
    ensures filterValue.Some? ==>
      (r <==> forall j :: 0 <= j < |filterValue.value| ==>
                exists k :: 0 <= k < |recipe.ingredients| && Provides(recipe.ingredients[k], filterValue.value[j]))
  {
    if filterValue.None? || |filterValue.value| == 0 then true
    else EveryChosenProvided(filterValue.value, recipe.ingredients)
  }

  /** The value the ingredient filter holds after a chip is added: the name
      goes at the end, whether or not it is already there. */
  function WithChip(current: Option<seq<string>>, name: string): (r: seq<string>)
    ensures multiset(r)[name] == multiset(current.GetOr([]))[name] + 1
    ensures forall x :: x != name ==> multiset(r)[x] == multiset(current.GetOr([]))[x]
    ensures |r| > 0 && r[|r| - 1] == name
  {
    current.GetOr([]) + [name]
  }

  /** The value after a chip is removed: every occurrence of the name goes,
      and an unset filter stays unset. */
  function WithoutChip(current: Option<seq<string>>, name: string): (r: Option<seq<string>>)
    ensures r.Some? <==> current.Some?
    ensures r.Some? ==> name !in r.value && multiset(r.value) == multiset(current.value)[name := 0]
  {
    match current
    case None => None
    case Some(names) => Some(RemoveAll(names, name))
  }

  /** Removing the chip just added gives back the filter it was added to. */
  lemma ChipRoundTrip(chosen: seq<string>, name: string)
    requires name !in chosen
    ensures WithoutChip(Some(WithChip(Some(chosen), name)), name) == Some(chosen)
  {
    RemoveAllUndoesAppend(chosen, name);
  }

  /** Adding a chip keeps exactly the recipes that also provide the new name,
      so it can only narrow the result. */
  lemma AddingChipNarrows(recipe: Recipe, current: Option<seq<string>>, name: string)
    ensures IngredientsFilter(recipe, Some(WithChip(current, name)))
      <==> IngredientsFilter(recipe, current) && SomeSlotHas(recipe.ingredients, name)
  {
    var before := current.GetOr([]);
    var after := WithChip(current, name);
    assert forall j :: 0 <= j < |before| ==> after[j] == before[j];
    assert after[|before|] == name;
  }

  /** Removing a chip can only widen the result. */
  lemma RemovingChipWidens(recipe: Recipe, current: Option<seq<string>>, name: string)
    requires IngredientsFilter(recipe, current)
    ensures IngredientsFilter(recipe, WithoutChip(current, name))
  {
    if current.Some? {
      var rest := WithoutChip(current, name).value;
      forall j | 0 <= j < |rest|
        ensures exists k :: 0 <= k < |recipe.ingredients| && Provides(recipe.ingredients[k], rest[j])
      {
        assert rest[j] in multiset(rest);
        assert rest[j] in current.value;
      }
    }
  }

  /** A recipe of one single slot and one group passes a filter naming a
      member of the group, and fails one naming an ingredient it lacks. */
  lemma GroupMemberExample(a: Ingredient, b: Ingredient, c: Ingredient, other: string, recipe: Recipe)
    requires recipe.ingredients == [Single(a), Group([b, c])]
    requires other != a.name && other != b.name && other != c.name
    ensures IngredientsFilter(recipe, Some([a.name, c.name]))
    ensures !IngredientsFilter(recipe, Some([other]))
  {
    assert Provides(recipe.ingredients[0], a.name);
    assert [b, c][1].name == c.name;
    assert Provides(recipe.ingredients[1], c.name);
  }

  /** The sort weight: the number of slots, plus the size of the first slot
      when that slot is a group. Groups in later slots count once. */
  function Weight<T>(slots: seq<Slot<T>>): (w: nat)
    ensures w >= |slots|
  {
    |slots| + (if |slots| > 0 && slots[0].Group? then |slots[0].members| else 0)
  }

  /** The reference count: every slot once, plus every member of every
      group. */
  function FullWeight<T>(slots: seq<Slot<T>>): nat {
    if slots == [] then 0
    else
      FullWeight(slots[..|slots| - 1])
      + 1 + (if slots[|slots| - 1].Group? then |slots[|slots| - 1].members| else 0)
  }

  /** Only the first slot may be a group. */
  predicate GroupOnlyFirst<T>(slots: seq<Slot<T>>) {
    forall k :: 1 <= k < |slots| ==> slots[k].Single?
  }

  /** The sort weight is the full count exactly when no group follows the
      first slot, the shape the recipe scraper produces. */
  lemma {:induction false} WeightIsFullWeight<T>(slots: seq<Slot<T>>)
    requires GroupOnlyFirst(slots)
    ensures Weight(slots) == FullWeight(slots)
  {
    if |slots| > 1 {
      var init := slots[..|slots| - 1];
      assert init[0] == slots[0];
      WeightIsFullWeight(init);
    }
  }

  lemma {:induction false} WeightAtMostFullWeight<T>(slots: seq<Slot<T>>)
    ensures Weight(slots) <= FullWeight(slots)
  {
    if |slots| > 1 {
      var init := slots[..|slots| - 1];
      assert init[0] == slots[0];
      WeightAtMostFullWeight(init);
    }
  }

  /** `(x[0] || x[0][0]).name`: indexing an empty list's missing first slot
      throws, and a group has no name (undefined). */
  function TieName(slots: seq<Slot<Ingredient>>): Result<Option<string>> {
    if slots == [] then Err(TypeError)
    else match slots[0]
      case Single(i) => Ok(Some(i.name))
      case Group(_) => Ok(None)
  }

  /** The ingredients column's `sortingFn`: the heavier recipe first, and
      on equal weights the first ingredients' names compared, `b` against
      `a`. The name comparison is lexicographic. */
  function SortIngredients(a: seq<Slot<Ingredient>>, b: seq<Slot<Ingredient>>): (r: Result<int>)
    ensures Weight(a) != Weight(b) ==> r == Ok(Weight(b) - Weight(a))
    ensures Weight(a) == Weight(b) ==> (r.Err? <==> (|a| == 0 || |b| == 0 || b[0].Group?))
    ensures Weight(a) == Weight(b) && r.Ok? && a[0].Single? ==> r.value == Compare(b[0].item.name, a[0].item.name)
    ensures Weight(a) == Weight(b) && r.Ok? && a[0].Group? ==> r.value == Compare(b[0].item.name, "undefined")
  {
    var weightA := Weight(a);
    var weightB := Weight(b);
    if weightA == weightB then
      var receiver :- TieName(b);
      if receiver.None? then Err(TypeError)
      else
        match TieName(a)
        case Err(e) => Err(e)
        case Ok(argument) => Ok(Compare(receiver.value, argument.GetOr("undefined")))
    else
      Ok(weightB - weightA)
  }

  /** The heavier recipe compares lower, so it sorts first in ascending
      order. */
  lemma HeavierFirst(a: seq<Slot<Ingredient>>, b: seq<Slot<Ingredient>>)
    requires Weight(a) > Weight(b)
    ensures SortIngredients(a, b).Ok? && SortIngredients(a, b).value < 0
  {
  }

  /** Where both directions are defined, the comparator is antisymmetric. */
  lemma SortIngredientsAntisymmetric(a: seq<Slot<Ingredient>>, b: seq<Slot<Ingredient>>)
    requires SortIngredients(a, b).Ok? && SortIngredients(b, a).Ok?
    ensures SortIngredients(a, b).value == -SortIngredients(b, a).value
  {
    if Weight(a) == Weight(b) {
      CompareAntisymmetric(b[0].item.name, a[0].item.name);
    }
  }

  // ---------------------------------------------------------------------
  // Generic-ingredient lookups

  /** `getIngredientTypeByName`: the type of the first ingredient so named. */
  function IngredientTypeByName(ingredients: seq<Ingredient>, name: string): (r: Option<string>)
    ensures r.None? <==> forall k :: 0 <= k < |ingredients| ==> ingredients[k].name != name
    ensures r.Some? ==>
      exists k :: 0 <= k < |ingredients| && ingredients[k].name == name
        && r.value == ingredients[k].ingredientType
        && forall k' :: 0 <= k' < k ==> ingredients[k'].name != name
  {
    match Find(ingredients, (i: Ingredient) => i.name == name)
    case None => None
    case Some(k) => Some(ingredients[k].ingredientType)
  }

  /** The first generic ingredient of the type; an undefined type matches
      nothing. */
  function GenericOfType(ingredients: seq<Ingredient>, ingredientType: Option<string>): (r: Option<Ingredient>)
    ensures r.None? <==> forall k :: 0 <= k < |ingredients| ==>
      !(Some(ingredients[k].ingredientType) == ingredientType && ingredients[k].isGeneric)
    ensures r.Some? ==>
      exists k :: 0 <= k < |ingredients| && r.value == ingredients[k]
        && r.value.isGeneric && Some(r.value.ingredientType) == ingredientType
        && forall k' :: 0 <= k' < k ==>
             !(Some(ingredients[k'].ingredientType) == ingredientType && ingredients[k'].isGeneric)
  {
    match Find(ingredients, (i: Ingredient) => Some(i.ingredientType) == ingredientType && i.isGeneric)
    case None => None
    case Some(k) => Some(ingredients[k])
  }

  /** `getGenericImageUrl`. */
  function GenericImageUrl(ingredients: seq<Ingredient>, ingredientType: Option<string>): (r: Option<string>)
    ensures r.None? <==> forall k :: 0 <= k < |ingredients| ==>
      !(Some(ingredients[k].ingredientType) == ingredientType && ingredients[k].isGeneric)
    ensures r.Some? ==>
      exists k :: 0 <= k < |ingredients| && ingredients[k].imageUrl == r.value
        && ingredients[k].isGeneric && Some(ingredients[k].ingredientType) == ingredientType
        && forall k' :: 0 <= k' < k ==>
             !(Some(ingredients[k'].ingredientType) == ingredientType && ingredients[k'].isGeneric)
  {
    match GenericOfType(ingredients, ingredientType)
    case None => None
    case Some(g) => Some(g.imageUrl)
  }

  /** `getGenericImageUrlByIngredient`. */
  function GenericImageUrlByIngredient(ingredients: seq<Ingredient>, ingredient: Ingredient): (r: Option<string>)
    ensures (forall k :: 0 <= k < |ingredients| ==> ingredients[k].name != ingredient.name) ==> r.None?
    ensures r.None? <==>
      var t := IngredientTypeByName(ingredients, ingredient.name);
      forall k :: 0 <= k < |ingredients| ==> !(Some(ingredients[k].ingredientType) == t && ingredients[k].isGeneric)
    ensures r.Some? ==>
      var t := IngredientTypeByName(ingredients, ingredient.name);
      exists k :: 0 <= k < |ingredients| && ingredients[k].isGeneric && ingredients[k].imageUrl == r.value
        && Some(ingredients[k].ingredientType) == t
        && forall k' :: 0 <= k' < k ==> !(Some(ingredients[k'].ingredientType) == t && ingredients[k'].isGeneric)
  {
    GenericImageUrl(ingredients, IngredientTypeByName(ingredients, ingredient.name))
  }

  /** `getGenericNameByIngredient`: the name of the first generic ingredient
      of the type of the first ingredient named like this one; undefined,
      not a failure, when either lookup misses. */
  function GenericNameByIngredient(ingredients: seq<Ingredient>, ingredient: Ingredient): (r: Option<string>)
    ensures (forall k :: 0 <= k < |ingredients| ==> ingredients[k].name != ingredient.name) ==> r.None?
    ensures r.None? <==>
      var t := IngredientTypeByName(ingredients, ingredient.name);
      forall k :: 0 <= k < |ingredients| ==> !(Some(ingredients[k].ingredientType) == t && ingredients[k].isGeneric)
    ensures r.Some? ==>
      var t := IngredientTypeByName(ingredients, ingredient.name);
      exists k :: 0 <= k < |ingredients| && ingredients[k].isGeneric && ingredients[k].name == r.value
        && Some(ingredients[k].ingredientType) == t
        && forall k' :: 0 <= k' < k ==> !(Some(ingredients[k'].ingredientType) == t && ingredients[k'].isGeneric)
  {
    match GenericOfType(ingredients, IngredientTypeByName(ingredients, ingredient.name))
    case None => None
    case Some(g) => Some(g.name)
  }

  // ---------------------------------------------------------------------
  // Menu option lists

  function TypeNames(recipes: seq<Recipe>): (r: seq<string>)
    ensures |r| == |recipes| && forall k :: 0 <= k < |recipes| ==> r[k] == recipes[k].recipeType.name
  {
    seq(|recipes|, k requires 0 <= k < |recipes| => recipes[k].recipeType.name)
  }

  function CollectionNames(recipes: seq<Recipe>): (r: seq<string>)
    ensures |r| == |recipes| && forall k :: 0 <= k < |recipes| ==> r[k] == recipes[k].collection
  {
    seq(|recipes|, k requires 0 <= k < |recipes| => recipes[k].collection)
  }

  /** The type menu: each recipe type once, in order of first appearance. */
  function TypeOptions(recipes: seq<Recipe>): (r: seq<string>)
    ensures NoDuplicates(r)
    ensures forall k :: 0 <= k < |recipes| ==> recipes[k].recipeType.name in r
    ensures forall i :: 0 <= i < |r| ==> exists k :: 0 <= k < |recipes| && recipes[k].recipeType.name == r[i]
    ensures forall i, j :: 0 <= i < j < |r| ==>
      r[i] in TypeNames(recipes) && r[j] in TypeNames(recipes)
      && FirstIndex(TypeNames(recipes), r[i]) < FirstIndex(TypeNames(recipes), r[j])
  {
    var names := TypeNames(recipes);
    var r := Distinct(names);
    assert forall i :: 0 <= i < |r| ==> r[i] in names;
    DistinctKeepsFirstOccurrenceOrder(names);
    r
  }

  /** The collection menu: each collection once, in order of first appearance. */
  function CollectionOptions(recipes: seq<Recipe>): (r: seq<string>)
    ensures NoDuplicates(r)
    ensures forall k :: 0 <= k < |recipes| ==> recipes[k].collection in r
    ensures forall i :: 0 <= i < |r| ==> exists k :: 0 <= k < |recipes| && recipes[k].collection == r[i]
    ensures forall i, j :: 0 <= i < j < |r| ==>
      r[i] in CollectionNames(recipes) && r[j] in CollectionNames(recipes)
      && FirstIndex(CollectionNames(recipes), r[i]) < FirstIndex(CollectionNames(recipes), r[j])
  {
    var names := CollectionNames(recipes);
    var r := Distinct(names);
    assert forall i :: 0 <= i < |r| ==> r[i] in names;
    DistinctKeepsFirstOccurrenceOrder(names);
    r
  }

  /** The ingredient picker's items: value and label are the name. */
  function PickerItems(ingredients: seq<Ingredient>): (r: seq<Item>)
    ensures |r| == |ingredients|
    ensures forall k :: 0 <= k < |r| ==> r[k].value == ingredients[k].name && r[k].text == ingredients[k].name
  {
    seq(|ingredients|, k requires 0 <= k < |ingredients| =>
      Item(ingredients[k].name, ingredients[k].name, ingredients[k].imageUrl))
  }

  /** What the picker shows under this table: the chosen names go to a prop
      the picker does not read, so every ingredient stays on offer. */
  function Candidates(ingredients: seq<Ingredient>): (r: seq<Item>)
    ensures r == PickerItems(ingredients)
  {
    NothingHidden(PickerItems(ingredients));
    Visible(PickerItems(ingredients), None)
  }

  // ---------------------------------------------------------------------
  // Table state

  /** The column filters this table sets; None is an unset filter. */
  datatype Filters = Filters(
    name: Option<string>,
    recipeType: Option<string>,
    collection: Option<string>,
    ingredients: Option<seq<string>>)

  const NoFilters := Filters(None, None, None, None)

  /** The header button: descending is requested exactly when the column
      is sorted ascending. */
  function NextSort(sorting: seq<SortEntry>, column: string): (r: seq<SortEntry>)
    ensures |r| == 1 && r[0].id == column
    ensures r[0].desc <==> SortOf(sorting, column) == Ascending
  {
    [SortEntry(column, SortOf(sorting, column) == Ascending)]
  }

  /** Clicks on one header alternate between ascending and descending. */
  lemma HeaderClicksAlternate(sorting: seq<SortEntry>, column: string)
    ensures SortOf(NextSort(sorting, column), column) != Unsorted
    ensures SortOf(NextSort(NextSort(sorting, column), column), column)
      != SortOf(NextSort(sorting, column), column)
  {
  }

  class Table {
    var sorting: seq<SortEntry>
    var columnFilters: Filters
    var searchTerm: string

    constructor()
      ensures sorting == [] && columnFilters == NoFilters && searchTerm == ""
    {
      sorting := [];
      columnFilters := NoFilters;
      searchTerm := "";
    }

    /** The type menu's button text: the filter value, or 'All'. */
    function TypeButtonText(): string
      reads this
    {
      columnFilters.recipeType.GetOr("All")
    }

    /** The collection menu's button text. */
    function CollectionButtonText(): string
      reads this
    {
      columnFilters.collection.GetOr("All")
    }

    /** A keystroke in the search box: the box shows the text at once. */
    method EditSearch(value: string)
      modifies this
      ensures searchTerm == value
      ensures sorting == old(sorting) && columnFilters == old(columnFilters)
    {
      searchTerm := value;
    }

    /** The debounced search callback firing, 200 ms after the last
        keystroke: the name filter takes the value. */
    method ApplySearch(value: string)
      modifies this
      ensures columnFilters == old(columnFilters).(name := TextFilter(value))
      ensures sorting == old(sorting) && searchTerm == old(searchTerm)
    {
      var filter := if value == "" then None else Some(value);
      columnFilters := columnFilters.(name := filter);
    }

    /** A type menu item: 'All' (None) unsets the filter, a type sets it. */
    method ChooseType(choice: Option<string>)
      modifies this
      ensures columnFilters == old(columnFilters).(recipeType := choice)
      ensures TypeButtonText() == if choice.Some? then choice.value else "All"
      ensures sorting == old(sorting) && searchTerm == old(searchTerm)
    {
      columnFilters := columnFilters.(recipeType := choice);
    }

    /** A collection menu item. */
    method ChooseCollection(choice: Option<string>)
      modifies this
      ensures columnFilters == old(columnFilters).(collection := choice)
      ensures CollectionButtonText() == if choice.Some? then choice.value else "All"
      ensures sorting == old(sorting) && searchTerm == old(searchTerm)
    {
      columnFilters := columnFilters.(collection := choice);
    }

    /** The picker's `onSelect`: the name is appended as a chip. */
    method AddChip(name: string)
      modifies this
      ensures columnFilters == old(columnFilters).(ingredients := Some(WithChip(old(columnFilters.ingredients), name)))
      ensures sorting == old(sorting) && searchTerm == old(searchTerm)
    {
      var current := columnFilters.ingredients;
      var updated := current.GetOr([]) + [name];
      columnFilters := columnFilters.(ingredients := Some(updated));
    }

    /** A chip's close button: every chip with that name goes. */
    method RemoveChip(name: string)
      modifies this
      ensures columnFilters == old(columnFilters).(ingredients := WithoutChip(old(columnFilters.ingredients), name))
      ensures sorting == old(sorting) && searchTerm == old(searchTerm)
    {
      var current := columnFilters.ingredients;
      var updated := if current.Some? then Some(RemoveAll(current.value, name)) else None;
      columnFilters := columnFilters.(ingredients := updated);
    }

    /** "Clear filters". */
    method ClearFilters()
      modifies this
      ensures searchTerm == "" && columnFilters == NoFilters && sorting == []
    {
      searchTerm := "";
      columnFilters := NoFilters;
      sorting := [];
    }

    /** A click on a sortable column's header; returns the requested order. */
    method HeaderClick(column: string) returns (desc: bool)
      modifies this
      ensures desc <==> old(SortOf(sorting, column)) == Ascending
      ensures sorting == NextSort(old(sorting), column)
      ensures columnFilters == old(columnFilters) && searchTerm == old(searchTerm)
    {
      desc := SortOf(sorting, column) == Ascending;
      sorting := [SortEntry(column, desc)];
    }
  }
}
