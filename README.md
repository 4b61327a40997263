# dlv-recipes in Dafny

A Dafny model of the query layer behind the two catalogue tables of the
Disney Dreamlight Valley recipes and critters site. It also models the text
rules of the scrapers that produce those tables' data.

- **Time utilities** (`TimeUtils`, `Constants`): the 12-hour/24-hour hour
  converters, the parsing of "9 AM to 5 PM" ranges, the per-day
  availability checks with their midnight wrap, and the hour and day menus.
- **Critters table** (`CrittersTable`): the location and schedule column
  filters, the option lists of its menus, and the table state as a class.
  The class holds `sorting`, `columnFilters`, `searchTerm` and the two
  "filter is all" flags, with one method per event handler.
- **Recipes table** (`RecipesTable`): the type and ingredient filters, the
  ingredient-count comparator, the generic-ingredient lookups, the menus,
  and the table state with its handlers.
- **Older recipes table** (`DataTable`): the same filters, its own
  comparator, and its handlers. Its type menu is `RecipesTable.TypeOptions`,
  because the code is the same.
- **Ingredient picker** (`Combobox`): the visible candidates, the
  "No more items." marker, and the popover's `open` flag.
- **Recipe scraper** (`RecipeTableParser`): star counting, number
  cleaning, image-URL choice, `parse_ingredients` and `parse_table`. The page
  is abstracted as sequences of cells and `nametemplate` spans.
- **Python critter scraper** (`CritterParser`): schedules, food rewards,
  food lists, clean text, locations, and the critter-kind lookups in the
  fourteen-entry type table.
- **TypeScript critter script** (`CritterScript`): the same three readers,
  over raw `textContent` trimmed the JavaScript way.

Shared modules:

- `Base` holds `Option`, `Result` and the error kinds. A thrown exception is
  an `Err` carrying its kind.
- `Strings` holds the JavaScript and Python string primitives the code
  relies on: trim, strip, `split`, `replace`, `parseInt` and lower-casing.
- `Patterns` holds the two regular expressions, the quantity `\((\d+(?:-\d+)?)\)`
  and the citation marker `\[\d+\]`.
- `Collections` holds `find`, `[...new Set(...)]` and `filter(i => i !== x)`.
- `Types` holds the records of `src/types`.

A JavaScript number that may be `NaN` is `JsNumber`. A schedule day is
`Absent | Flag(bool) | Range(text)`, because the scrapers leave out "n/a" days.

`checkTime` does not do what its midnight branch sets out to do, and the
model keeps the code as written. The comment at `src/utils/time-utils.ts:97`
says the branch handles ranges that end at or past midnight. The branch moves
only the end hour 24 hours on and then compares it with an hour below 24.
A wrapped range therefore admits only the hours from its start to 23, and
"10 PM to 2 AM" is not available at 1 AM. The tables use this behaviour,
because it is what the site does; "## Findings" sets it beside a corrected
window.

## Model

| member | source | states |
|---|---|---|
| TimeUtils.Convert24HourTo12Hour | src/utils/time-utils.ts:34-50 | 0 is "12 AM", 1 to 11 are "h AM", 12 is "12 PM", and every later hour is "(h - 12) PM" |
| TimeUtils.Convert12HourTo24Hour | src/utils/time-utils.ts:53-64 | the hour text is split on its first space, the first piece goes through `parseInt`, "12 AM" becomes 0 and a PM hour other than 12 gains 12; the behaviour is proved by Convert12HourTo24HourOfLabel, HourRoundTrip and LabelRoundTrip below |
| TimeUtils.To24 | src/utils/time-utils.ts:53-64 | the 24-hour value of a 12-hour label lies in 0..23 and is before noon exactly when the label is AM |
| TimeUtils.LabelSplits | src/utils/time-utils.ts:54 | splitting a label on its space gives the hour digits and the meridiem |
| TimeUtils.Convert12HourTo24HourOfLabel | src/utils/time-utils.ts:53-64 | every label "k AM" or "k PM" with k in 1..12 converts to its 24-hour value |
| TimeUtils.HourRoundTrip | src/utils/time-utils.ts:34-64 | converting any hour 0..23 to a label and back gives the hour |
| TimeUtils.LabelRoundTrip | src/utils/time-utils.ts:34-64 | converting any well-formed label to an hour and back gives the label |
| TimeUtils.MidnightAndNoon | src/utils/time-utils.ts:56-61 | "12 AM" is hour 0 and "12 PM" is hour 12 |
| TimeUtils.ParseTimeString | src/utils/time-utils.ts:4-31 | the first " - " becomes " to " and the text is split on " to "; the parse fails (TypeError) exactly when there is no end side, and otherwise each side is converted by the converter's AM/PM rules |
| TimeUtils.ParseWellFormedRange | src/utils/time-utils.ts:4-31 | a range of two well-formed labels joined by " to " or " - " parses to their two 24-hour values, both in 0..23 |
| TimeUtils.CheckTime | src/utils/time-utils.ts:84-103 | for 'all-day', true exactly when the day is `true`; for a numeric hour, a boolean day is returned as is, a missing day throws a TypeError, and a range fails exactly when its parse fails |
| TimeUtils.CheckTimeIsWindow | src/utils/time-utils.ts:93-102 | for a minute of 0 or more, a parsed range admits the hour exactly when start <= hour <= end, with the end moved 24 hours on when it is before the start |
| TimeUtils.AdmitsIsWindow | src/utils/time-utils.ts:102 | the comparison admits the end hour itself for every minute of 0 or more |
| TimeUtils.CheckTimeNegativeMinute | src/utils/time-utils.ts:93-102 | with a negative minute the end hour itself is no longer admitted |
| TimeUtils.AdmitsWithNegativeMinute | src/utils/time-utils.ts:102 | the comparison with a negative minute is the window without its end hour |
| TimeUtils.CheckTimeOfNaN | src/utils/time-utils.ts:93-102 | a range with an unparseable side admits no hour |
| TimeUtils.MidnightWrap | src/utils/time-utils.ts:98-102 | a range that ends before it starts admits an hour of the day exactly when the hour is at or after the start |
| TimeUtils.DaytimeExample | src/utils/time-utils.ts:93-102 | "9 AM to 5 PM" admits 9:00 and 17:30 and rejects 8:59 and 18:00 |
| TimeUtils.OvernightExample | src/utils/time-utils.ts:98-102 | "10 PM to 2 AM" admits 23:00 and rejects 1:00 |
| TimeUtils.CheckTimeIntended | src/utils/time-utils.ts:84-103 | the corrected `checkTime`: as written except on a range, where a parse failure still fails and an unreadable hour admits nothing |
| TimeUtils.IntendedWrapWindow | src/utils/time-utils.ts:97-102 | the corrected window of a range past midnight holds the hours from its start to 23 and from 0 to its end |
| TimeUtils.IntendedAgreesWithoutWrap | src/utils/time-utils.ts:97-102 | on a range that does not wrap, the corrected window is the written one |
| TimeUtils.OvernightIntendedExample | src/utils/time-utils.ts:97-102 | with the correction, "10 PM to 2 AM" admits 23:00 and 1:00 and rejects 3:00 |
| TimeUtils.SomeDayPasses | src/utils/time-utils.ts:74-76 | `.some` over the day values: a failure comes from some day, and when no day fails the result is whether some day passes |
| TimeUtils.GetIsAvailableOnDay | src/utils/time-utils.ts:66-69 | false exactly when the lower-cased day's value is the boolean false |
| TimeUtils.GetIsAvailableAtTime | src/utils/time-utils.ts:72-82 | with a day, the check of that day's value only; with no day, whether some present day passes, when none fails |
| Constants.HourOptions | src/utils/constants.ts:6-13 | 24 options, and option i is the converter's label of hour i |
| Constants.HourOptionsAreLabels | src/utils/constants.ts:6-13 | there are 24 options and option i is the converter's label for hour i |
| Constants.HourOptionsRoundTrip | src/utils/constants.ts:6-13 | option i converts back to hour i, the path the hour select takes |
| Constants.HourOptionsDistinct | src/utils/constants.ts:8-12 | the 24 options are pairwise distinct |
| Constants.MidnightAndNoonOptions | src/utils/constants.ts:8-12 | option 0 is "12 AM" and option 12 is "12 PM" |
| Constants.HourOptionHour | src/utils/constants.ts:6-13 | every option converts to an hour in 0..23 whose label is the option |
| Constants.DayOptionsAreKeys | src/utils/constants.ts:15-23 | the seven day names, Sunday to Saturday, lower-case to the seven schedule keys in order |
| Types.DayValueOf | src/types/critter.ts:10-18 | a schedule key reads its day's value; any other key reads nothing |
| Types.ScheduleOf | src/types/critter.ts:10-18 | a scraped day object read as a schedule: each day holds its entry, or nothing when the key is missing |
| Types.ScheduleValues | src/utils/time-utils.ts:74 | `Object.values`: only present values, and every present value |
| Combobox.Visible | src/components/Combobox.tsx:57 | the shown items are at most the list's and none of them is hidden; VisibleMembers and VisibleKeepsOrder below give membership both ways and the order |
| Combobox.VisibleMembers | src/components/Combobox.tsx:57 | an item is shown exactly when it is in the list and its value is not hidden |
| Combobox.VisibleKeepsOrder | src/components/Combobox.tsx:57 | filtering distributes over concatenation, so the list order is kept |
| Combobox.NothingHidden | src/components/Combobox.tsx:54-57 | with no hidden list every item is shown, in order |
| Combobox.NoMoreItemsWhenAllHidden | src/components/Combobox.tsx:53-56 | "No more items." is shown exactly when every item's value is hidden |
| Combobox.Picker.constructor | src/components/Combobox.tsx:32 | the popover starts closed |
| Combobox.Picker.OpenChange | src/components/Combobox.tsx:35 | the popover takes the requested open state |
| Combobox.Picker.Select | src/components/Combobox.tsx:61-64 | the item's value goes to `onSelect` and the popover closes |
| CrittersTable.LocationFilter | src/components/CrittersTable.tsx:139-146 | a falsy value passes every critter; any other value must equal the location's name |
| CrittersTable.ScheduleFilter | src/components/CrittersTable.tsx:155-181 | no filter passes everything; an unset hour gives the day check alone (true for an unset day); a set hour with no day gives the any-day time check |
| CrittersTable.TimeTestSubsumesDayTest | src/components/CrittersTable.tsx:164-180 | with a day and an hour set, the filter is that day's time check |
| CrittersTable.MidnightIsAnHour | src/components/CrittersTable.tsx:168-178 | hour 0 counts as a set hour |
| CrittersTable.AvailableNowChecksToday | src/components/CrittersTable.tsx:368-380 | the Available Now criterion checks only today's value at the current hour |
| CrittersTable.ScheduleFilterIsWindow | src/components/CrittersTable.tsx:155-181 | on a day with a parsed range, the filter is the range's window test |
| CrittersTable.NoUnavailableDayPassesDayOnly | src/components/CrittersTable.tsx:164-180 | without an hour, a critter with no day marked unavailable passes |
| CrittersTable.LocationOptions | src/components/CrittersTable.tsx:202 | each location once, every critter's location included, nothing else, in the order of first occurrence |
| CrittersTable.TypeOptions | src/components/CrittersTable.tsx:203 | each critter type once, every critter's type included, nothing else, in the order of first occurrence |
| CrittersTable.MenuChoice | src/components/CrittersTable.tsx:234-247 | '' and 'all' unset the filter, with the all flag set only for 'all'; any other value becomes the filter; the select then shows the chosen value |
| CrittersTable.HourChoiceOf | src/components/CrittersTable.tsx:294-319 | 'all' and 'all-day' keep their meaning, and an hour label becomes an hour in 0..23 whose label it is |
| CrittersTable.Table.constructor | src/components/CrittersTable.tsx:39-43 | no sorting, no filters, an empty search, both all flags off |
| CrittersTable.Table.EditSearch | src/components/CrittersTable.tsx:226-229 | the search box shows the typed text; nothing else changes |
| CrittersTable.Table.ApplySearch | src/components/CrittersTable.tsx:215-218 | the debounced callback sets the name filter to the text; nothing else changes |
| CrittersTable.Table.SelectType | src/components/CrittersTable.tsx:234-247 | the type filter and its all flag follow the menu choice and the select shows the chosen value; other state is kept |
| CrittersTable.Table.SelectLocation | src/components/CrittersTable.tsx:260-273 | the same machine for the location filter |
| CrittersTable.Table.SelectHour | src/components/CrittersTable.tsx:289-319 | '' removes the schedule filter; any other value changes only the hour, keeps the day and defaults the minute to 0; the select shows the chosen value |
| CrittersTable.Table.SelectDay | src/components/CrittersTable.tsx:333-351 | '' removes the schedule filter; 'all' unsets the day and any other value sets it, keeping the hour and the minute; the select shows the chosen value |
| CrittersTable.Table.AvailableNow | src/components/CrittersTable.tsx:368-380 | the schedule filter becomes today at the current hour and minute; the day and hour selects show them |
| CrittersTable.Table.ClearFilters | src/components/CrittersTable.tsx:388-395 | the search, the filters, the sorting and both all flags are reset, and every select shows '' |
| CrittersTable.Table.HeaderClick | src/components/CrittersTable.tsx:81-84 | descending is requested exactly when the column is sorted ascending |
| CrittersTable.ValidCriterionIsWindow | src/components/CrittersTable.tsx:155-181 | every criterion the handlers can build filters a parsed range by its window |
| RecipesTable.TypeFilter | src/components/RecipesTable.tsx:193-200 | a falsy value passes every recipe; any other value must equal the type's name |
| RecipesTable.GroupHas | src/components/RecipesTable.tsx:289 | true exactly when some member of the group has the name |
| RecipesTable.SomeSlotHas | src/components/RecipesTable.tsx:287-292 | true exactly when some slot provides the name: a single of that name or a group with such a member |
| RecipesTable.EveryChosenProvided | src/components/RecipesTable.tsx:286-293 | true exactly when every chosen name is provided by some slot |
| RecipesTable.IngredientsFilter | src/components/RecipesTable.tsx:280-294 | an absent or empty choice passes every recipe; otherwise a recipe passes exactly when every chosen name is provided by some slot |
| RecipesTable.WithoutChip | src/components/RecipesTable.tsx:457-461 | every occurrence of the name is removed and the other chips keep their counts; an unset filter stays unset |
| RecipesTable.ChipRoundTrip | src/components/RecipesTable.tsx:430-461 | removing a chip just added, for a name not yet chosen, gives back the previous choice |
| RecipesTable.AddingChipNarrows | src/components/RecipesTable.tsx:280-294 | after a chip is added, a recipe passes exactly when it passed before and provides the new name |
| RecipesTable.RemovingChipWidens | src/components/RecipesTable.tsx:280-294 | a recipe that passed still passes after a chip is removed |
| RecipesTable.GroupMemberExample | src/components/RecipesTable.tsx:286-293 | a member of a group satisfies a chosen name, and an absent name fails |
| RecipesTable.Weight | src/components/RecipesTable.tsx:300-307 | the weight is at least the number of slots |
| RecipesTable.WeightIsFullWeight | src/components/RecipesTable.tsx:300-307 | when only the first slot may be a group, the weight counts every slot and every group member |
| RecipesTable.WeightAtMostFullWeight | src/components/RecipesTable.tsx:300-307 | the weight never exceeds that full count, since later groups count once |
| RecipesTable.SortIngredients | src/components/RecipesTable.tsx:295-314 | different weights give weight(b) - weight(a); equal weights compare b's first name with a's (undefined for a group), and fail when a list is empty or b starts with a group |
| RecipesTable.HeavierFirst | src/components/RecipesTable.tsx:313 | the heavier recipe compares lower |
| RecipesTable.SortIngredientsAntisymmetric | src/components/RecipesTable.tsx:310-313 | where both orders are defined, swapping the recipes negates the result |
| RecipesTable.IngredientTypeByName | src/components/RecipesTable.tsx:93-97 | the type of the first ingredient with the name, or nothing exactly when no ingredient has it |
| RecipesTable.GenericImageUrl | src/components/RecipesTable.tsx:87-91 | the image URL of the first ingredient that is generic and of the type, or undefined exactly when no ingredient is both |
| RecipesTable.GenericOfType | src/components/RecipesTable.tsx:87-91 | the first generic ingredient of the type, or nothing exactly when there is none |
| RecipesTable.GenericImageUrlByIngredient | src/components/RecipesTable.tsx:87-101 | undefined exactly when no ingredient is generic and of the type of the first ingredient so named (so also when no ingredient has the name); otherwise the image of the first such generic ingredient |
| RecipesTable.GenericNameByIngredient | src/components/RecipesTable.tsx:93-108 | undefined, not a failure, exactly when either lookup misses; otherwise the name of the first generic ingredient of the looked-up type |
| RecipesTable.TypeNames | src/components/RecipesTable.tsx:352 | one entry per recipe: its type's name |
| RecipesTable.CollectionNames | src/components/RecipesTable.tsx:353 | one entry per recipe: its collection |
| RecipesTable.TypeOptions | src/components/RecipesTable.tsx:352 | each type name once, every recipe's type included, nothing else, in the order of first occurrence |
| RecipesTable.CollectionOptions | src/components/RecipesTable.tsx:353 | each collection once, every recipe's collection included, nothing else, in the order of first occurrence |
| RecipesTable.WithChip | src/components/RecipesTable.tsx:430-435 | picking an ingredient appends it to the current chips (none when the filter is unset): it ends the list, occurs once more than before, and every other name as often as before |
| RecipesTable.PickerItems | src/components/RecipesTable.tsx:425-429 | one item per ingredient, with the name as value and label |
| RecipesTable.Candidates | src/components/RecipesTable.tsx:424-430 | the picker shows every ingredient, since the chosen names go to a prop it does not read |
| RecipesTable.NextSort | src/components/RecipesTable.tsx:206 | one entry for the column, descending exactly when it was sorted ascending |
| RecipesTable.HeaderClicksAlternate | src/components/RecipesTable.tsx:206 | after a click the column is sorted, and consecutive clicks flip the direction |
| RecipesTable.Table.constructor | src/components/RecipesTable.tsx:45-47 | no sorting, no filters, an empty search |
| RecipesTable.Table.EditSearch | src/components/RecipesTable.tsx:375-378 | the search box shows the typed text; nothing else changes |
| RecipesTable.Table.ApplySearch | src/components/RecipesTable.tsx:365-367 | the debounced callback sets the name filter; nothing else changes |
| RecipesTable.Table.ChooseType | src/components/RecipesTable.tsx:390-398 | 'All' unsets the type filter and a type sets it; the button shows the choice or 'All' |
| RecipesTable.Table.ChooseCollection | src/components/RecipesTable.tsx:411-419 | the same for the collection filter |
| RecipesTable.Table.AddChip | src/components/RecipesTable.tsx:431-435 | the name is appended to the chosen names, without a duplicate check |
| RecipesTable.Table.RemoveChip | src/components/RecipesTable.tsx:457-461 | the chosen names lose every occurrence of the name |
| RecipesTable.Table.ClearFilters | src/components/RecipesTable.tsx:473-477 | the search, the filters and the sorting are reset |
| RecipesTable.Table.HeaderClick | src/components/RecipesTable.tsx:268 | descending is requested exactly when the column is sorted ascending |
| DataTable.SortIngredients | src/components/DataTable.tsx:185-204 | different weights give weight(b) - weight(a), with the same first-slot weight |
| DataTable.SameOrderAsRecipesTable | src/components/DataTable.tsx:200-203 | the comparator equals the catalogue table's on every pair of lists, failures included |
| DataTable.Candidates | src/components/DataTable.tsx:345-346 | no chosen ingredient is offered, and every ingredient not chosen is |
| DataTable.AllChosenShowsNoMoreItems | src/components/DataTable.tsx:345-346 | once every ingredient is chosen, the picker shows "No more items." |
| DataTable.Table.constructor | src/components/DataTable.tsx:41-42 | no sorting and no filters |
| DataTable.Table.Search | src/components/DataTable.tsx:317-319 | a keystroke sets the name filter at once, and the box shows it |
| DataTable.Table.ChooseType | src/components/DataTable.tsx:330-340 | 'All' unsets the type filter and a type sets it |
| DataTable.Table.AddChip | src/components/DataTable.tsx:347-351 | the name is appended, and the picker stops offering it |
| DataTable.Table.RemoveChip | src/components/DataTable.tsx:358-362 | the chosen names lose every occurrence of the name |
| DataTable.Table.ClearAll | src/components/DataTable.tsx:369-372 | the filters and the sorting are reset |
| DataTable.Table.HeaderClick | src/components/DataTable.tsx:60 | descending is requested exactly when the column is sorted ascending |
| RecipeTableParser.CountStars | parser/recipe-table-parser.py:6-7 | the length of the text's run with only white space around it and none at its ends, for every text; all of it when the text has no surrounding space |
| RecipeTableParser.StrippedRunUnique | parser/recipe-table-parser.py:6-7 | a text has one such run, so the star count is determined |
| RecipeTableParser.CleanNumber | parser/recipe-table-parser.py:9-11 | only digits and '-' remain, and the text never grows; CleanNumberDropsOther and CleanNumberAppend below pin every character |
| RecipeTableParser.CleanNumberOfNumberText | parser/recipe-table-parser.py:9-11 | text already made of digits and '-' is unchanged |
| RecipeTableParser.CleanNumberIdempotent | parser/recipe-table-parser.py:9-11 | cleaning twice is cleaning once |
| RecipeTableParser.CleanNumberAppend | parser/recipe-table-parser.py:9-11 | cleaning works piece by piece, so the kept characters keep their order |
| RecipeTableParser.CleanNumberDropsSeparator | parser/recipe-table-parser.py:9-11 | a thousands separator between two numbers is dropped |
| RecipeTableParser.CleanNumberDropsOther | parser/recipe-table-parser.py:9-11 | any character other than a digit or '-' is dropped wherever it stands, and the text on each side is cleaned as on its own |
| RecipeTableParser.ToIntField | parser/recipe-table-parser.py:188-189 | empty text gives None; text that is not an integer raises ValueError |
| RecipeTableParser.NumberFieldRoundTrip | parser/recipe-table-parser.py:172-189 | an integer's decimal text survives cleaning and reads back as the integer |
| RecipeTableParser.OnBase | parser/recipe-table-parser.py:25-29 | the base URL, one '/', then the path without its leading '/' |
| RecipeTableParser.ExtractImageUrl | parser/recipe-table-parser.py:13-31 | `extract_image_url`: the last `srcset` entry's first token, else `src`, joined to the wiki's base URL, else None; the cases are proved by ExtractImageUrlCases, and the srcset choice for every srcset by SrcsetPicksLastEntry below |
| RecipeTableParser.ExtractImageUrlCases | parser/recipe-table-parser.py:13-31 | no tag gives None; a non-empty srcset fails (IndexError) exactly when its last entry has no token, and otherwise gives that token on the base URL (the last entry and its first token are pinned by PyLastPieceIsLast, PyLastPieceAfterComma and PyFirstTokenCases); a URL starts with the base; with no srcset the src rule applies |
| RecipeTableParser.SrcsetPicksLastEntry | parser/recipe-table-parser.py:20-25 | for every srcset that is one entry, or any earlier text, ", " and a last entry: the result is the base URL joined to the last entry's first token (the URL before its white space and density), with '/' inserted by OnBase when the URL lacks one; `src` is not consulted |
| RecipeTableParser.AppendNamed | parser/recipe-table-parser.py:111-115 | an ingredient with an empty name is not appended |
| RecipeTableParser.MandatoryStep | parser/recipe-table-parser.py:105-115 | a span outside lists reads a new name; a list span re-appends the previous one, or raises UnboundLocalError when there is none |
| RecipeTableParser.MandatoryLoop | parser/recipe-table-parser.py:105-115 | the first loop computes the fold of its step over every span |
| RecipeTableParser.OptionalLoop | parser/recipe-table-parser.py:118-130 | the second loop computes the fold over the first list's items |
| RecipeTableParser.Assemble | parser/recipe-table-parser.py:132-135 | optional ingredients become one group at index 0, followed by the mandatory ones; only the first slot is a group; the weight counts every ingredient |
| RecipeTableParser.ParseIngredients | parser/recipe-table-parser.py:101-135 | the list of the cell's ingredients: the first loop's names, the second loop's group, then the assembly; a failure in either loop is the result |
| RecipeTableParser.MandatoryErrSticks | parser/recipe-table-parser.py:105-115 | once the first loop fails, its result is that failure |
| RecipeTableParser.OptionalErrSticks | parser/recipe-table-parser.py:120-130 | once the second loop fails, its result is that failure |
| RecipeTableParser.ParsedListHasOneLeadingGroup | parser/recipe-table-parser.py:132-135 | a parsed list has its only group first, so the table's weight is the full count |
| RecipeTableParser.MandatoryNamesFromOutsideLists | parser/recipe-table-parser.py:105-115 | every appended name is non-empty and read from a span outside lists |
| RecipeTableParser.ListSpanRepeatsPreviousName | parser/recipe-table-parser.py:105-115 | a list span after a page span appends the page span's ingredient a second time |
| RecipeTableParser.ListSpanFirstFails | parser/recipe-table-parser.py:105-111 | a cell whose first span is in a list raises UnboundLocalError |
| RecipeTableParser.ParseRow | parser/recipe-table-parser.py:143-193 | a row without cells is skipped and a row with one to seven cells fails; a read row takes its image from cell 0, its name from cell 1, its type name and type image from the first span of cell 2, its stars from the star span of cell 3 (None without one), its energy and sell price as `int(clean_number(...))` of cells 4 and 5 (None when the cleaned text is empty), its ingredients as `parse_ingredients` of cell 6 with only a leading group, and its collection from cell 7 |
| RecipeTableParser.Collect | parser/recipe-table-parser.py:142-195 | the rows succeed exactly when every row does; a failure is the first row's failure; the result holds only rows' recipes |
| RecipeTableParser.CollectSnoc | parser/recipe-table-parser.py:142-193 | one more row adds its recipe, skips an empty row, or fails |
| RecipeTableParser.RowResults | parser/recipe-table-parser.py:142-193 | one outcome per row, each row parsed on its own |
| RecipeTableParser.ParseRowsLoop | parser/recipe-table-parser.py:142-193 | the loop over the rows collects their outcomes |
| RecipeTableParser.ParseTable | parser/recipe-table-parser.py:137-195 | the first table's rows after the header, collected |
| RecipeTableParser.CollectErrSticks | parser/recipe-table-parser.py:142-193 | a failure among the first rows is the whole table's failure |
| RecipeTableParser.HeaderRowIgnored | parser/recipe-table-parser.py:142 | the header row's contents never matter |
| RecipeTableParser.EmptyRowSkipped | parser/recipe-table-parser.py:143-145 | a row without cells adds nothing |
| RecipeTableParser.ParsedRecipesHaveOneLeadingGroup | parser/recipe-table-parser.py:142-195 | every scraped recipe comes from a row and has at most one group, at index 0 |
| CritterParser.DayEntry | parser/parse_critter_data.py:120-127 | "n/a" leaves the day out, "All day" is True, and any other text is kept as it is |
| CritterParser.ParseSchedule | parser/parse_critter_data.py:113-129 | day i is read from cell i + 3; fewer than ten cells raise IndexError; the result never holds False |
| CritterParser.ScrapedScheduleKeepsEveryDay | parser/parse_critter_data.py:113-129 | a scraped schedule marks no day unavailable for the day filter |
| CritterParser.FoodRewards | parser/parse_critter_data.py:131-151 | a span without a link raises AttributeError; there are never more rewards than spans |
| CritterParser.FoodRewardsFails | parser/parse_critter_data.py:136-137 | the parse fails exactly when some span has no link |
| CritterParser.RewardsComeFromSpans | parser/parse_critter_data.py:136-149 | each reward names a span's non-empty link text, with the quantity from that span's own text, or '1' |
| CritterParser.RewardPerSpan | parser/parse_critter_data.py:136-149 | spans that all have named links give one reward each, in order |
| CritterParser.RewardsFollowNames | parser/parse_critter_data.py:136-149 | when every span has a link, the rewards name exactly the non-empty link texts, in order |
| CritterParser.ParseFoodRewards | parser/parse_critter_data.py:131-151 | the loop computes the rewards of the spans |
| CritterParser.RewardsErrSticks | parser/parse_critter_data.py:136-137 | a span without a link anywhere fails the whole cell |
| CritterParser.NonEmptyNames | parser/parse_critter_data.py:159-170 | exactly the non-empty names, never more of them than links |
| CritterParser.ParseFoodItems | parser/parse_critter_data.py:153-172 | favourite and liked foods are both the non-empty link texts, so they are equal |
| CritterParser.ExtractCleanText | parser/parse_critter_data.py:174-185 | a link outside a citation gives its text; otherwise the cell text without its `[digits]` markers, stripped |
| CritterParser.CitedNameIsClean | parser/parse_critter_data.py:181-185 | a name followed by a citation marker comes back as the name |
| CritterParser.ExtractLocation | parser/parse_critter_data.py:187-203 | no link, an empty name or "n/a" gives None; an image without `src` raises KeyError; otherwise the clean name and the base URL plus `src` |
| CritterParser.GetCritterType | parser/parse_critter_data.py:288-293 | the kind of the first type-table entry that lists the name as a variant, or None exactly when no entry lists it |
| CritterParser.GetCritterTypeFromTypeName | parser/parse_critter_data.py:295-305 | the kind of the first type-table entry whose kind or plural equals the name ignoring case, or that lists it as a variant; None exactly when no entry matches |
| CritterParser.KindOfVariant | parser/parse_critter_data.py:288-293 | the first entry listing the name as a variant, or None exactly when none does |
| CritterParser.KindOfTypeName | parser/parse_critter_data.py:295-305 | the first entry matched by its kind or plural ignoring case, or by a variant exactly; None exactly when none matches |
| CritterParser.FirstListingDecides | parser/parse_critter_data.py:290-292 | the first entry listing the name decides the kind |
| CritterParser.FirstNamedDecides | parser/parse_critter_data.py:297-303 | the first entry naming the type name decides the kind |
| CritterParser.RedFoxIsAFox | parser/parse_critter_data.py:54-111 | "Red Fox" is a Fox in the table |
| CritterParser.LowerCasePluralHeading | parser/parse_critter_data.py:295-305 | the heading "crocodiles" names the Crocodile kind |
| CritterScript.DayEntry | src/scripts/parse-critter-data.ts:61-69 | "n/a" leaves the day out, "All day" is true, empty text stores undefined, and any other text is kept |
| CritterScript.ReadSchedule | src/scripts/parse-critter-data.ts:59-70 | day i is read from text i + 3; past the row's end a TypeError is thrown; no day is ever false |
| CritterScript.ParseSchedule | src/scripts/parse-critter-data.ts:55-73 | the same over the cells' trimmed texts; fewer than ten cells throw a TypeError |
| CritterScript.SameScheduleAsScraper | src/scripts/parse-critter-data.ts:55-73 | on trimmed, non-empty cells the script reads the schedule the Python scraper reads |
| CritterScript.FoodRewards | src/scripts/parse-critter-data.ts:79-90 | every reward names a non-empty link text and carries the quantity found in the whole cell's text |
| CritterScript.RewardsFollowNames | src/scripts/parse-critter-data.ts:79-90 | the rewards name exactly the non-empty link texts, in order |
| CritterScript.ReadFoodRewards | src/scripts/parse-critter-data.ts:79-91 | the loop computes the rewards of the names |
| CritterScript.ParseFoodRewards | src/scripts/parse-critter-data.ts:75-94 | the rewards of the links' trimmed texts |
| CritterScript.ReadFoodNames | src/scripts/parse-critter-data.ts:102-107 | one loop keeps exactly the non-empty names, in order |
| CritterScript.ParseFoodItems | src/scripts/parse-critter-data.ts:96-119 | favourite and liked foods are both the non-empty trimmed link texts, so they are equal |
| Patterns.QuantitySearch | parser/parse_critter_data.py:143 | the group found is a quantity (digits, or digits-digits), and there is none exactly when no position of the text starts a match |
| Patterns.QuantityAtShape | parser/parse_critter_data.py:143 | a match at a position is "(", a quantity of digits or digits-digits, then ")" |
| Patterns.QuantitySearchIsLeftmost | parser/parse_critter_data.py:143 | the search returns the leftmost match's quantity, or nothing when no position matches |
| Patterns.NoParenthesisNoQuantity | parser/parse_critter_data.py:143-144 | text without "(" has no quantity |
| Patterns.QuantityOfCount | parser/parse_critter_data.py:143-144 | "name(n)" yields n |
| Patterns.QuantityOfRange | parser/parse_critter_data.py:143-144 | "name(n-m)" yields n-m |
| Patterns.LeftmostQuantity | parser/parse_critter_data.py:143 | the first matching position decides the quantity |
| Patterns.CitationLength | parser/parse_critter_data.py:184 | a citation marker is "[", one or more digits, then "]" |
| Patterns.RemoveCitations | parser/parse_critter_data.py:184 | removal never lengthens the text; the lemmas below fix what it removes and what it keeps |
| Patterns.RemoveCitationsWithoutBracket | parser/parse_critter_data.py:184 | text without "[" is unchanged |
| Patterns.UnmatchedBracketKept | parser/parse_critter_data.py:184 | a "[" not followed by digits and "]" is kept, and the scan goes on after it |
| Patterns.RemoveCitationsBeforeBracket | parser/parse_critter_data.py:184 | removal before a "[" works piece by piece |
| Patterns.LeadingMarkerRemoved | parser/parse_critter_data.py:184 | a leading marker is removed |
| Patterns.RemoveCitationsAround | parser/parse_critter_data.py:184 | a marker between two texts is removed and the texts are joined |
| Patterns.RemovalCanLeaveAMarker | parser/parse_critter_data.py:184 | a single left-to-right pass can leave a marker behind: "[1[2]]" becomes "[1]" |
| Strings.JsTrim | src/scripts/parse-critter-data.ts:61 | the trimmed text is a piece of the text with only JavaScript white space before and after it and none at its own ends; text already trimmed is unchanged |
| Strings.PyStrip | parser/parse_critter_data.py:185 | the stripped text is a piece of the text with only Python white space before and after it and none at its own ends; text already stripped is unchanged |
| Strings.ParseInt | src/utils/time-utils.ts:55 | `parseInt`: leading white space and one sign skipped, then the longest digit run read, NaN when there is none; ParseIntOfDigits and ParseIntOfNatToString prove it on digit strings |
| Strings.ParseIntOfNatToString | src/utils/time-utils.ts:55 | `parseInt` reads a number's decimal text back as the number |
| Strings.ReplaceFirst | src/utils/time-utils.ts:5 | with no occurrence the text is unchanged; otherwise the first occurrence, and only it, is replaced |
| Strings.ReplaceFirstOf | src/utils/time-utils.ts:5 | only the first occurrence of the pattern is replaced |
| Strings.SplitTwo | src/utils/time-utils.ts:6 | the second piece is missing exactly when the separator does not occur, and then the first piece is the text; otherwise the first piece is the text before the first occurrence and the second runs from after it up to the next occurrence or the end; no occurrence starts inside either piece, even one that overlaps its end |
| Strings.SplitTwoByChar | src/utils/time-utils.ts:6 | the first two pieces of a split on a separator that occurs once |
| Strings.PyFirstTokenCases | parser/recipe-table-parser.py:24 | the first token of `split()` is the first one: only white space before it, non-empty, no white space in it, and the end or white space after it; there is none exactly when the text is all white space |
| Strings.PyFirstTokenOf | parser/recipe-table-parser.py:24 | white space, a token, then the end or white space: `split()[0]` is that token |
| Strings.PyLastPieceIsLast | parser/recipe-table-parser.py:22-24 | the last piece of a split is a suffix of the text that holds no separator, and it is either the whole text or preceded by the separator |
| Strings.PyLastPieceAfterComma | parser/recipe-table-parser.py:22-24 | whatever precedes it, the text after a ", " that is followed by no other ", " is `split(', ')[-1]` |
| Strings.Lower | src/utils/time-utils.ts:67 | same length; each ASCII upper-case letter becomes its lower-case letter, and every other character is kept |
| Strings.Compare | src/components/RecipesTable.tsx:311 | the comparison gives -1, 0 or 1, and 0 exactly for equal names |
| Strings.CompareAntisymmetric | src/components/RecipesTable.tsx:311 | swapping the names negates the comparison |
| Collections.Distinct | src/components/RecipesTable.tsx:352 | `[...new Set(...)]`: no duplicates, and the same elements as the input |
| Collections.DistinctKeepsFirstOccurrenceOrder | src/components/RecipesTable.tsx:352 | the elements keep the order of their first occurrence |
| Collections.RemoveAll | src/components/RecipesTable.tsx:459 | `filter(i => i !== x)`: x is gone and every other element keeps its count |
| Collections.RemoveAllAppend | src/components/RecipesTable.tsx:459 | the filter distributes over concatenation, so order is kept |
| Collections.Find | src/components/RecipesTable.tsx:88-90 | `find`: the first index whose element satisfies the test, or none exactly when no element does |

## Findings

| source | as written | input that shows it | evidently intended | confidence | as-written member | corrected member |
|---|---|---|---|---|---|---|
| src/utils/time-utils.ts:97-102 | a range past midnight has only its end hour moved 24 hours on, and the hour is compared unmoved | "10 PM to 2 AM" at 1:00 gives false | an hour before the start is read as the next day's hour, so 1:00 is admitted | high, not executed | TimeUtils.OvernightExample | TimeUtils.OvernightIntendedExample |

## Left out

- Library internals: the table library's row models, the stability of its sort, its default filter for the name search, the critter type column and the recipes collection column (neither column has a `filterFn`, so the value `ChooseCollection` sets goes through the library default), and the automatic removal of empty filter values beyond the search text. Each handler is modelled as the filter or sorting value it asks the library to set.
- Timers and services: the 200 ms debounce is modelled as two events, the keystroke (`EditSearch`) and the callback firing (`ApplySearch`). The analytics calls are left out.
- Clock: Available Now reads `new Date()`; `CrittersTable.Table.AvailableNow` takes the day, hour and minute as parameters.
- Rendering: JSX, styles, number formatting, images and star icons.
- Strings.Compare: `localeCompare` collation depends on the locale and is replaced by code-point lexicographic order.
- Strings.ParseInt: JavaScript `parseInt` is modelled for leading white space, a sign and decimal digits; hexadecimal prefixes are not modelled.
- Patterns: `\d` is modelled as the ASCII digits 0 to 9 only.
- Strings.Lower: JavaScript `toLowerCase` and Python `lower()` are modelled for ASCII letters only. Unicode case mappings such as KELVIN SIGN to "k" are not, so `CritterParser.KindOfTypeName` misses headings that match only after such a mapping.
- RecipeTableParser.CleanNumber: `[^\d-]` keeps only the ASCII digits, and `ToIntField` reads only ASCII digits. Python's `\d` and `int()` also accept other Unicode decimal digits.
- TimeUtils.SomeDayPasses: the no-day availability check runs over the present days in Sunday-to-Saturday order, not in the object's insertion order. The contract therefore does not say which result comes back when one day throws and another passes.
- DOM and files: BeautifulSoup and JSDOM traversal, file reads and writes, the `main` functions, `save_to_csv` and `convert_html_file_to_csv`. The page is abstracted as sequences of cell texts, links and spans; Python `get_text(strip=True)` values enter the model already stripped.
- CritterScript.ParseSchedule: the trimming of all cells happens before the loop, which the source interleaves; trimming has no effect the loop can observe.
- CritterParser.FoodRewards: the span's own text is taken as given; how BeautifulSoup joins nested text is not modelled.
- The scrapers' row selection in `main` (rows with fewer than eight or ten cells) and the skipping of critters without a name, location or image are not modelled.
- SQL, seeding, async loading, static pages and `parser/ingredients-table-parser.py` are outside this model.
