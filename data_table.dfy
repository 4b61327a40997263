/** The earlier recipe table: the same type and ingredient filters as the
    recipe catalogue table, its own ingredient-count comparator, a search box
    bound straight to the name filter, and an ingredient picker that hides the
    ingredients already chosen. */
module DataTable {
  import opened Base
  import opened Strings
  import opened Collections
  import opened Types
  import opened Combobox
  import RecipesTable

  /** The ingredients column's `sortingFn`: the heavier recipe first, and on
      equal weights `b[0].name` compared with `a[0].name`. Reading a field
      of a missing first slot throws; a group has no name (undefined). */
  function SortIngredients(a: seq<Slot<Ingredient>>, b: seq<Slot<Ingredient>>): (r: Result<int>)
    ensures RecipesTable.Weight(a) != RecipesTable.Weight(b)
      ==> r == Ok(RecipesTable.Weight(b) - RecipesTable.Weight(a))
  {
    var weightA := RecipesTable.Weight(a);
    var weightB := RecipesTable.Weight(b);
    if weightA == weightB then
      if |b| == 0 then Err(TypeError)
      else match b[0]
        case Group(_) => Err(TypeError)
        case Single(first) =>
          if |a| == 0 then Err(TypeError)
          else match a[0]
            case Group(_) => Ok(Compare(first.name, "undefined"))
            case Single(other) => Ok(Compare(first.name, other.name))
    else
      Ok(weightB - weightA)
  }

  /** The two tables order recipes identically, failures included: the
      catalogue table's `(x[0] || x[0][0])` fallback never changes which
      name is read. */
  lemma SameOrderAsRecipesTable(a: seq<Slot<Ingredient>>, b: seq<Slot<Ingredient>>)
    ensures SortIngredients(a, b) == RecipesTable.SortIngredients(a, b)
  {
  }

  /** The picker's items under this table: the chosen ingredients are
      passed as its hidden list. */
  function Candidates(ingredients: seq<Ingredient>, chosen: Option<seq<string>>): (r: seq<Item>)
    ensures forall i :: 0 <= i < |r| ==> chosen.None? || r[i].value !in chosen.value
    ensures forall k :: 0 <= k < |ingredients| && !IsHidden(chosen, ingredients[k].name)
                 ==> exists i :: 0 <= i < |r| && r[i].value == ingredients[k].name
  {
    var items := RecipesTable.PickerItems(ingredients);
    var r := Visible(items, chosen);
    VisibleMembers(items, chosen);
    assert forall i :: 0 <= i < |r| ==> r[i] in r;
    assert forall k :: 0 <= k < |ingredients| ==> items[k] in items;
    r
  }

  /** Once every ingredient is chosen the picker shows "No more items." */
  lemma AllChosenShowsNoMoreItems(ingredients: seq<Ingredient>, chosen: seq<string>)
    requires forall k :: 0 <= k < |ingredients| ==> ingredients[k].name in chosen
    ensures ShowsNoMoreItems(RecipesTable.PickerItems(ingredients), Some(chosen))
  {
    NoMoreItemsWhenAllHidden(RecipesTable.PickerItems(ingredients), Some(chosen));
  }

  /** The column filters this table sets; it has no collection menu. */
  datatype Filters = Filters(
    name: Option<string>,
    recipeType: Option<string>,
    ingredients: Option<seq<string>>)

  const NoFilters := Filters(None, None, None)

  class Table {
    var sorting: seq<SortEntry>
    var columnFilters: Filters

    constructor()
      ensures sorting == [] && columnFilters == NoFilters
    {
      sorting := [];
      columnFilters := NoFilters;
    }

    /** The search box shows the name filter, or nothing. */
    function SearchBoxText(): string
      reads this
    {
      columnFilters.name.GetOr("")
    }

    function TypeButtonText(): string
      reads this
    {
      columnFilters.recipeType.GetOr("All")
    }

    /** A keystroke in the search box sets the name filter at once. */
    method Search(value: string)
      modifies this
      ensures columnFilters == old(columnFilters).(name := TextFilter(value))
      ensures SearchBoxText() == value
      ensures sorting == old(sorting)
    {
      var filter := if value == "" then None else Some(value);
      columnFilters := columnFilters.(name := filter);
    }

    /** A type menu item: 'All' (None) unsets the filter. */
    method ChooseType(choice: Option<string>)
      modifies this
      ensures columnFilters == old(columnFilters).(recipeType := choice)
      ensures TypeButtonText() == if choice.Some? then choice.value else "All"
      ensures sorting == old(sorting)
    {
      columnFilters := columnFilters.(recipeType := choice);
    }

    /** The picker's `onSelect`: the name is appended as a chip, and the
        picker stops offering it. */
    method AddChip(ingredients: seq<Ingredient>, name: string)
      modifies this
      ensures columnFilters == old(columnFilters).(ingredients := Some(RecipesTable.WithChip(old(columnFilters.ingredients), name)))
      ensures forall i :: 0 <= i < |Candidates(ingredients, columnFilters.ingredients)|
                   ==> Candidates(ingredients, columnFilters.ingredients)[i].value != name
      ensures sorting == old(sorting)
    {
      var current := columnFilters.ingredients;
      var updated := current.GetOr([]) + [name];
      assert name in updated;
      columnFilters := columnFilters.(ingredients := Some(updated));
    }

    /** A chip's close button: every chip with that name goes. */
    method RemoveChip(name: string)
      modifies this
      ensures columnFilters == old(columnFilters).(ingredients := RecipesTable.WithoutChip(old(columnFilters.ingredients), name))
      ensures sorting == old(sorting)
    {
      var current := columnFilters.ingredients;
      var updated := if current.Some? then Some(RemoveAll(current.value, name)) else None;
      columnFilters := columnFilters.(ingredients := updated);
    }

    /** "Clear all". */
    method ClearAll()
      modifies this
      ensures columnFilters == NoFilters && sorting == []
    {
      columnFilters := NoFilters;
      sorting := [];
    }

    method HeaderClick(column: string) returns (desc: bool)
      modifies this
      ensures desc <==> old(SortOf(sorting, column)) == Ascending
      ensures sorting == RecipesTable.NextSort(old(sorting), column)
      ensures columnFilters == old(columnFilters)
    {
      desc := SortOf(sorting, column) == Ascending;
      sorting := [SortEntry(column, desc)];
    }
  }
}
