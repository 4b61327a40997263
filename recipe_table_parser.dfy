/** The recipe scraper: star counting, number cleaning, the choice of an
    image URL from `srcset`/`src`, the assembly of a recipe's ingredient list
    from the name spans of its table cell, and the walk over the table rows.
    The parsed HTML is represented by what the scraper asks of it: for each
    cell its first image, its text, its first span, its star span and its
    ingredient spans. */
module RecipeTableParser {
  import opened Base
  import opened Strings
  import opened Types
  import RecipesTable

  // ---------------------------------------------------------------------
  // Text rules

  /** The `n` characters of `s` from `i` on have white space only before
      and after them in `s`, and none at either of their own ends. */
  predicate StrippedRun(s: string, i: int, n: nat) {
    0 <= i <= |s| - n
      && AllSatisfy(s[..i], IsPySpace) && AllSatisfy(s[i + n..], IsPySpace)
      && (n > 0 ==> !IsPySpace(s[i]) && !IsPySpace(s[i + n - 1]))
  }

  /** `count_stars`: the length of the text without surrounding white space. */
  function CountStars(starText: string): (r: nat)
    ensures r <= |starText|
    ensures exists i :: StrippedRun(starText, i, r)
    ensures (starText == [] || (!IsPySpace(starText[0]) && !IsPySpace(starText[|starText| - 1]))) ==> r == |starText|
  {
    var t := PyStrip(starText);
    assert exists i :: StrippedRun(starText, i, |t|) by {
      var i :| PaddedAt(starText, t, i, IsPySpace);
      if t != [] {
        assert t[0] == starText[i];
        assert t[|t| - 1] == starText[i + |t| - 1];
      }
      assert StrippedRun(starText, i, |t|);
    }
    |t|
  }

  /** A text has only one stripped run, so `CountStars` is determined. */
  lemma StrippedRunUnique(s: string, i: int, n: nat, j: int, m: nat)
    requires StrippedRun(s, i, n) && StrippedRun(s, j, m)
    ensures n == m
  {
  }

  predicate IsNumberChar(c: char) {
    IsDigit(c) || c == '-'
  }

  predicate IsNumberText(s: string) {
    forall i :: 0 <= i < |s| ==> IsNumberChar(s[i])
  }

  /** `clean_number`: every character other than a digit or '-' removed. */
  function CleanNumber(text: string): (r: string)
    ensures IsNumberText(r)
    ensures |r| <= |text|
  {
    if text == [] then []
    else if IsNumberChar(text[0]) then [text[0]] + CleanNumber(text[1..])
    else CleanNumber(text[1..])
  }

  /** Text that is already clean comes back unchanged. */
  lemma {:induction false} CleanNumberOfNumberText(s: string)
    requires IsNumberText(s)
    ensures CleanNumber(s) == s
  {
    if s != [] {
      CleanNumberOfNumberText(s[1..]);
    }
  }

  lemma CleanNumberIdempotent(s: string)
    ensures CleanNumber(CleanNumber(s)) == CleanNumber(s)
  {
    CleanNumberOfNumberText(CleanNumber(s));
  }

  /** Cleaning works piece by piece, so the kept characters stay in order. */
  lemma {:induction false} CleanNumberAppend(a: string, b: string)
    ensures CleanNumber(a + b) == CleanNumber(a) + CleanNumber(b)
  {
    if a == [] {
      assert a + b == b;
    } else {
      assert (a + b)[0] == a[0] && (a + b)[1..] == a[1..] + b;
      CleanNumberAppend(a[1..], b);
    }
  }

  /** Any character other than a digit or '-' is dropped, wherever it
      stands. */
  lemma CleanNumberDropsOther(a: string, c: char, b: string)
    requires !IsNumberChar(c)
    ensures CleanNumber(a + [c] + b) == CleanNumber(a) + CleanNumber(b)
  {
    CleanNumberAppend(a + [c], b);
    CleanNumberAppend(a, [c]);
    assert CleanNumber([c]) == [];
    assert CleanNumber(a) + [] == CleanNumber(a);
  }

  /** A thousands separator is dropped. */
  lemma CleanNumberDropsSeparator(a: string, b: string)
    requires IsNumberText(a) && IsNumberText(b)
    ensures CleanNumber(a + "," + b) == a + b
  {
    assert CleanNumber(a + ",") == a by {
      CleanNumberAppend(a, ",");
      assert CleanNumber(",") == [] by {
        assert !IsNumberChar(","[0]) && ","[1..] == [];
      }
      CleanNumberOfNumberText(a);
      assert a + [] == a;
    }
    assert CleanNumber(b) == b by {
      CleanNumberOfNumberText(b);
    }
    CleanNumberAppend(a + ",", b);
  }

  /** Text Python's `int` accepts once cleaned: digits, with one leading
      minus sign at most. */
  predicate IsIntegerText(s: string) {
    (s != [] && AllDigits(s)) || (|s| >= 2 && s[0] == '-' && AllDigits(s[1..]))
  }

  /** `int(text) if text else None` on a cleaned number: the empty text gives
      None, and text `int` does not accept raises ValueError. */
  function ToIntField(text: string): (r: Result<Option<int>>)
    ensures r == Ok(None) <==> text == ""
    ensures r.Err? <==> text != "" && !IsIntegerText(text)
    ensures r.Err? ==> r.error == ValueError
  {
    if text == [] then Ok(None)
    else if AllDigits(text) then Ok(Some(DigitsValue(text)))
    else if |text| >= 2 && text[0] == '-' && AllDigits(text[1..]) then
      var v: int := DigitsValue(text[1..]);
      Ok(Some(-v))
    else Err(ValueError)
  }

  /** A number's decimal text survives cleaning and reads back as the number. */
  lemma NumberFieldRoundTrip(n: int)
    ensures ToIntField(CleanNumber(NumberToString(n))) == Ok(Some(n))
  {
    var s := NumberToString(n);
    if n < 0 {
      var digits := NatToString(-n);
      assert s[1..] == digits;
      assert s[0] == '-';
      assert !AllDigits(s) by { assert !IsDigit(s[0]); }
      DigitsValueOfNatToString(-n);
    } else {
      DigitsValueOfNatToString(n);
    }
    assert IsNumberText(s);
    CleanNumberOfNumberText(s);
  }

  // ---------------------------------------------------------------------
  // Image URLs

  const BaseUrl: string := "https://dreamlightvalleywiki.com"

  /** An `<img>` tag's `srcset` and `src` attributes. */
  datatype ImgTag = ImgTag(srcset: Option<string>, src: Option<string>)

  /** The base URL joined to a path, with a '/' inserted when the path does
      not start with one. */
  function OnBase(path: string): (r: string)
    ensures |r| > |BaseUrl| && r[..|BaseUrl|] == BaseUrl && r[|BaseUrl|] == '/'
    ensures r[|BaseUrl| + 1..] == if |path| > 0 && path[0] == '/' then path[1..] else path
  {
    if |path| > 0 && path[0] == '/' then BaseUrl + path else BaseUrl + "/" + path
  }

  /** `extract_image_url`: the first token of the last ", "-separated entry
      of a non-empty `srcset`, else a non-empty `src`, else None; a last
      entry with no token raises IndexError. */
  function ExtractImageUrl(img: Option<ImgTag>): (r: Result<Option<string>>)
  {
    match img
    case None => Ok(None)
    case Some(tag) =>
      var srcset := tag.srcset.GetOr("");
      if srcset != "" then
        match PyFirstToken(PyLastPiece(srcset, ", "))
        case None => Err(IndexError)
        case Some(lastUrl) => Ok(Some(OnBase(lastUrl)))
      else if tag.src.GetOr("") != "" then
        Ok(Some(OnBase(tag.src.value)))
      else
        Ok(None)
  }

  /** The cases of `ExtractImageUrl`: no image gives None; a non-empty
      `srcset` fails exactly when its last entry has no token; otherwise a
      non-empty `src` is used; every URL returned is on the wiki's base URL. */
  lemma ExtractImageUrlCases(img: Option<ImgTag>)
    ensures img.None? ==> ExtractImageUrl(img) == Ok(None)
    ensures img.Some? && img.value.srcset.GetOr("") != "" ==>
      (ExtractImageUrl(img).Err? <==> PyFirstToken(PyLastPiece(img.value.srcset.value, ", ")).None?)
    ensures ExtractImageUrl(img).Err? ==> ExtractImageUrl(img).error == IndexError
    ensures ExtractImageUrl(img).Ok? && ExtractImageUrl(img).value.Some? ==>
      |ExtractImageUrl(img).value.value| > |BaseUrl| && ExtractImageUrl(img).value.value[..|BaseUrl|] == BaseUrl
    ensures img.Some? && img.value.srcset.GetOr("") != "" && PyFirstToken(PyLastPiece(img.value.srcset.value, ", ")).Some? ==>
      ExtractImageUrl(img) == Ok(Some(OnBase(PyFirstToken(PyLastPiece(img.value.srcset.value, ", ")).value)))
    ensures img.Some? && img.value.srcset.GetOr("") == "" ==>
      ExtractImageUrl(img) == Ok(if img.value.src.GetOr("") == "" then None else Some(OnBase(img.value.src.value)))
  {
  }

  /** The srcset rule on any non-empty `srcset`: whether the last entry
      stands alone or follows earlier entries and ", ", its first token (the
      URL before any white space and density) goes on the base URL, with a
      '/' inserted by `OnBase` when the URL lacks one. */
  lemma SrcsetPicksLastEntry(earlier: Option<string>, lead: string, url: string, tail: string, src: Option<string>)
    requires AllSatisfy(lead, IsPySpace) && url != [] && AllSatisfy(url, IsPyTokenChar)
    requires tail == [] || IsPySpace(tail[0])
    requires forall j :: !OccursAt(lead + url + tail, ", ", j)
    ensures var entry := lead + url + tail;
      var srcset := if earlier.Some? then earlier.value + ", " + entry else entry;
      ExtractImageUrl(Some(ImgTag(Some(srcset), src))) == Ok(Some(OnBase(url)))
  {
    var entry := lead + url + tail;
    if earlier.Some? {
      PyLastPieceAfterComma(earlier.value, entry);
    } else {
      assert IndexOf(entry, ", ").None?;
    }
    PyFirstTokenOf(lead, url, tail);
  }

  // ---------------------------------------------------------------------
  // Ingredient lists

  /** A `nametemplate` span of an ingredients cell: whether its parent is a
      `ul` or `li`, its first image, the text of its first link if it has
      one, and its stripped text. */
  datatype NameSpan = NameSpan(inList: bool, img: Option<ImgTag>, linkText: Option<string>, text: string)

  /** The ingredients cell: its `nametemplate` spans in document order, and
      for each `li` of its first `ul` (None when it has none) the first
      `nametemplate` span inside it. */
  datatype IngredientsCell = IngredientsCell(spans: seq<NameSpan>, firstList: Option<seq<Option<NameSpan>>>)

  /** A scraped ingredient. */
  datatype Entry = Entry(name: string, imageUrl: Option<string>)

  /** The link text if there is a link, otherwise the span's text. */
  function SpanName(span: NameSpan): string {
    span.linkText.GetOr(span.text)
  }

  /** The state of the first loop of `parse_ingredients`: the ingredients
      so far, and the name and image URL last read, which carry over to the
      next span. */
  datatype MandatoryState = MandatoryState(entries: seq<Entry>, last: Option<Entry>)

  /** `entries` with `e` appended unless its name is empty. */
  function AppendNamed(entries: seq<Entry>, e: Entry): (r: seq<Entry>)
    ensures e.name != "" ==> r == entries + [e]
    ensures e.name == "" ==> r == entries
  {
    if e.name != "" then entries + [e] else entries
  }

  /** One iteration of the first loop: a span outside a list is read, a span
      inside one reuses the name and image last read (UnboundLocalError when
      there is none), and the current name is appended unless it is empty. */
  function MandatoryStep(state: MandatoryState, span: NameSpan): (r: Result<MandatoryState>)
    ensures r.Ok? ==> r.value.last.Some? && r.value.entries == AppendNamed(state.entries, r.value.last.value)
    ensures r.Ok? && span.inList ==> r.value.last == state.last
    ensures r.Ok? && !span.inList ==> r.value.last.value.name == SpanName(span)
    ensures span.inList ==> (r.Err? <==> state.last.None?)
    ensures r.Err? && span.inList ==> r.error == UnboundLocalError
  {
    if !span.inList then
      match ExtractImageUrl(span.img)
      case Err(e) => Err(e)
      case Ok(url) =>
        var current := Entry(SpanName(span), url);
        Ok(MandatoryState(AppendNamed(state.entries, current), Some(current)))
    else if state.last.None? then
      Err(UnboundLocalError)
    else
      Ok(MandatoryState(AppendNamed(state.entries, state.last.value), state.last))
  }

  /** The first loop after `n` spans. */
  function Mandatory(spans: seq<NameSpan>, n: nat): Result<MandatoryState>
    requires n <= |spans|
  {
    if n == 0 then Ok(MandatoryState([], None))
    else
      var state :- Mandatory(spans, n - 1);
      MandatoryStep(state, spans[n - 1])
  }

  /** The second loop after `n` list items: each item with a span adds its
      name and image, empty names included. */
  function Optional(items: seq<Option<NameSpan>>, n: nat): Result<seq<Entry>>
    requires n <= |items|
  {
    if n == 0 then Ok([])
    else
      var entries :- Optional(items, n - 1);
      match items[n - 1]
      case None => Ok(entries)
      case Some(span) =>
        var url :- ExtractImageUrl(span.img);
        Ok(entries + [Entry(SpanName(span), url)])
  }

  function Singles(entries: seq<Entry>): (r: seq<Slot<Entry>>)
    ensures |r| == |entries| && forall i :: 0 <= i < |r| ==> r[i] == Single(entries[i])
  {
    seq(|entries|, i requires 0 <= i < |entries| => Single(entries[i]))
  }

  /** The list `parse_ingredients` returns: the optional ingredients as one
      group in front of the mandatory ones, when there are any. */
  function Assemble(mandatory: seq<Entry>, optional: seq<Entry>): (r: seq<Slot<Entry>>)
    ensures RecipesTable.GroupOnlyFirst(r)
    ensures optional != [] ==> |r| == |mandatory| + 1 && r[0] == Group(optional) && r[1..] == Singles(mandatory)
    ensures optional == [] ==> r == Singles(mandatory)
    ensures RecipesTable.Weight(r) == |mandatory| + (if optional != [] then 1 + |optional| else 0)
  {
    if optional != [] then [Group(optional)] + Singles(mandatory) else Singles(mandatory)
  }

  /** `parse_ingredients` as a function of the cell. */
  function ParseIngredientsSpec(cell: IngredientsCell): Result<seq<Slot<Entry>>> {
    var mandatory :- Mandatory(cell.spans, |cell.spans|);
    var optional :-
      if cell.firstList.None? then Ok([])
      else Optional(cell.firstList.value, |cell.firstList.value|);
    Ok(Assemble(mandatory.entries, optional))
  }

  /** The first loop of `parse_ingredients`: the spans outside lists in
      document order, with `name` and `img_url` carried over to list spans. */
  method MandatoryLoop(spans: seq<NameSpan>) returns (r: Result<MandatoryState>)
    ensures r == Mandatory(spans, |spans|)
  {
    var ingredients: seq<Entry> := [];
    var last: Option<Entry> := None;
    var i := 0;
    while i < |spans|
      invariant 0 <= i <= |spans|
      invariant Mandatory(spans, i) == Ok(MandatoryState(ingredients, last))
    {
      var span := spans[i];
      MandatoryPrefixStep(spans, i, MandatoryState(ingredients, last));
      if !span.inList {
        var url := ExtractImageUrl(span.img);
        if url.Err? {
          MandatoryErrSticks(spans, i + 1, |spans|);
          return Err(url.error);
        }
        last := Some(Entry(SpanName(span), url.value));
      } else if last.None? {
        MandatoryErrSticks(spans, i + 1, |spans|);
        return Err(UnboundLocalError);
      }
      if last.value.name != "" {
        ingredients := ingredients + [last.value];
      }
      i := i + 1;
    }
    r := Ok(MandatoryState(ingredients, last));
  }

  /** The first loop's state after one more span. */
  lemma MandatoryPrefixStep(spans: seq<NameSpan>, i: nat, state: MandatoryState)
    requires i < |spans| && Mandatory(spans, i) == Ok(state)
    ensures Mandatory(spans, i + 1) == MandatoryStep(state, spans[i])
  {
  }

  /** The second loop: the first span of each item of the first list. */
  method OptionalLoop(items: seq<Option<NameSpan>>) returns (r: Result<seq<Entry>>)
    ensures r == Optional(items, |items|)
  {
    var optional: seq<Entry> := [];
    var j := 0;
    while j < |items|
      invariant 0 <= j <= |items|
      invariant Optional(items, j) == Ok(optional)
    {
      if items[j].Some? {
        var span := items[j].value;
        var url := ExtractImageUrl(span.img);
        if url.Err? {
          OptionalErrSticks(items, j + 1, |items|);
          return Err(url.error);
        }
        optional := optional + [Entry(SpanName(span), url.value)];
      }
      j := j + 1;
    }
    r := Ok(optional);
  }

  /** `parse_ingredients`: the two loops, then the assembly. */
  method ParseIngredients(cell: IngredientsCell) returns (r: Result<seq<Slot<Entry>>>)
    ensures r == ParseIngredientsSpec(cell)
  {
    var mandatory := MandatoryLoop(cell.spans);
    if mandatory.Err? {
      return Err(mandatory.error);
    }
    var optional: seq<Entry> := [];
    if cell.firstList.Some? {
      var found := OptionalLoop(cell.firstList.value);
      if found.Err? {
        return Err(found.error);
      }
      optional := found.value;
    }
    var ingredients := mandatory.value.entries;
    if optional != [] {
      r := Ok([Group(optional)] + Singles(ingredients));
    } else {
      r := Ok(Singles(ingredients));
    }
  }

  /** A failure in the first loop is the loop's result. */
  lemma {:induction false} MandatoryErrSticks(spans: seq<NameSpan>, n: nat, m: nat)
    requires n <= m <= |spans| && Mandatory(spans, n).Err?
    ensures Mandatory(spans, m).Err? && Mandatory(spans, m).error == Mandatory(spans, n).error
    decreases m - n
  {
    if n < m {
      MandatoryErrSticks(spans, n, m - 1);
      MandatoryErrStep(spans, m);
    }
  }

  lemma MandatoryErrStep(spans: seq<NameSpan>, m: nat)
    requires 0 < m <= |spans| && Mandatory(spans, m - 1).Err?
    ensures Mandatory(spans, m) == Err(Mandatory(spans, m - 1).error)
  {
  }

  lemma {:induction false} OptionalErrSticks(items: seq<Option<NameSpan>>, n: nat, m: nat)
    requires n <= m <= |items| && Optional(items, n).Err?
    ensures Optional(items, m).Err? && Optional(items, m).error == Optional(items, n).error
    decreases m - n
  {
    if n < m {
      OptionalErrSticks(items, n, m - 1);
      OptionalErrStep(items, m);
    }
  }

  lemma OptionalErrStep(items: seq<Option<NameSpan>>, m: nat)
    requires 0 < m <= |items| && Optional(items, m - 1).Err?
    ensures Optional(items, m) == Err(Optional(items, m - 1).error)
  {
  }

  /** The list has at most one group, at index 0, so the table's first-slot
      sort weight counts every ingredient. */
  lemma ParsedListHasOneLeadingGroup(cell: IngredientsCell)
    requires ParseIngredientsSpec(cell).Ok?
    ensures RecipesTable.GroupOnlyFirst(ParseIngredientsSpec(cell).value)
    ensures RecipesTable.Weight(ParseIngredientsSpec(cell).value) == RecipesTable.FullWeight(ParseIngredientsSpec(cell).value)
  {
    RecipesTable.WeightIsFullWeight(ParseIngredientsSpec(cell).value);
  }

  /** `name` is the name of one of the first `n` spans that sit outside a
      list. */
  predicate NamedOutside(spans: seq<NameSpan>, n: nat, name: string)
    requires n <= |spans|
  {
    exists k :: 0 <= k < n && !spans[k].inList && SpanName(spans[k]) == name
  }

  /** Every name the first loop appends is the name of a span outside a
      list; list spans only repeat such a name. */
  lemma {:induction false} MandatoryNamesFromOutsideLists(spans: seq<NameSpan>, n: nat)
    requires n <= |spans| && Mandatory(spans, n).Ok?
    ensures forall e :: e in Mandatory(spans, n).value.entries ==> e.name != "" && NamedOutside(spans, n, e.name)
    ensures Mandatory(spans, n).value.last.Some? ==> NamedOutside(spans, n, Mandatory(spans, n).value.last.value.name)
  {
    if n > 0 {
      MandatoryNamesFromOutsideLists(spans, n - 1);
      NamesStep(spans, n, Mandatory(spans, n - 1).value, Mandatory(spans, n).value);
    }
  }

  /** One step of the first loop keeps every name it holds a name read
      outside a list. */
  lemma NamesStep(spans: seq<NameSpan>, n: nat, prev: MandatoryState, state: MandatoryState)
    requires 0 < n <= |spans| && MandatoryStep(prev, spans[n - 1]) == Ok(state)
    requires forall e :: e in prev.entries ==> e.name != "" && NamedOutside(spans, n - 1, e.name)
    requires prev.last.Some? ==> NamedOutside(spans, n - 1, prev.last.value.name)
    ensures forall e :: e in state.entries ==> e.name != "" && NamedOutside(spans, n, e.name)
    ensures state.last.Some? && NamedOutside(spans, n, state.last.value.name)
  {
    assert NamedOutside(spans, n, state.last.value.name) by {
      if !spans[n - 1].inList {
        assert SpanName(spans[n - 1]) == state.last.value.name;
      } else {
        var k :| 0 <= k < n - 1 && !spans[k].inList && SpanName(spans[k]) == prev.last.value.name;
        assert SpanName(spans[k]) == state.last.value.name;
      }
    }
    forall e | e in state.entries
      ensures e.name != "" && NamedOutside(spans, n, e.name)
    {
      if e in prev.entries {
        var k :| 0 <= k < n - 1 && !spans[k].inList && SpanName(spans[k]) == e.name;
        assert 0 <= k < n;
      } else {
        assert e == state.last.value;
      }
    }
  }

  /** A list span right after a page span appends that span's name a second
      time. */
  lemma ListSpanRepeatsPreviousName(outside: NameSpan, inside: NameSpan)
    requires !outside.inList && inside.inList && outside.img.None?
    requires SpanName(outside) != ""
    ensures Mandatory([outside, inside], 2)
      == Ok(MandatoryState([Entry(SpanName(outside), None), Entry(SpanName(outside), None)], Some(Entry(SpanName(outside), None))))
  {
    var spans := [outside, inside];
    var e := Entry(SpanName(outside), None);
    assert spans[0] == outside && spans[1] == inside;
    assert ExtractImageUrl(outside.img) == Ok(None);
    var start := MandatoryState([], None);
    assert Mandatory(spans, 0) == Ok(start);
    assert AppendNamed([], e) == [e];
    assert MandatoryStep(start, outside) == Ok(MandatoryState([e], Some(e)));
    assert Mandatory(spans, 1) == Ok(MandatoryState([e], Some(e)));
    assert AppendNamed([e], e) == [e, e];
    assert MandatoryStep(MandatoryState([e], Some(e)), inside) == Ok(MandatoryState([e, e], Some(e)));
  }

  /** A cell whose first span sits in a list raises UnboundLocalError. */
  lemma ListSpanFirstFails(inside: NameSpan, rest: seq<NameSpan>, firstList: Option<seq<Option<NameSpan>>>)
    requires inside.inList
    ensures ParseIngredientsSpec(IngredientsCell([inside] + rest, firstList)) == Err(UnboundLocalError)
  {
    var spans := [inside] + rest;
    assert spans[0] == inside;
    assert Mandatory(spans, 1) == Err(UnboundLocalError);
    MandatoryErrSticks(spans, 1, |spans|);
  }

  // ---------------------------------------------------------------------
  // Table rows

  /** The first `span` of the type cell: its first image and its text. */
  datatype TypeSpan = TypeSpan(img: Option<ImgTag>, text: string)

  /** A `td` as the row parser reads it: its first image, its stripped
      text, its first span, the text of its `star-color` span, and its
      ingredient spans. */
  datatype Td = Td(
    firstImg: Option<ImgTag>,
    text: string,
    firstSpan: Option<TypeSpan>,
    starText: Option<string>,
    ingredients: IngredientsCell)

  /** A scraped recipe row. */
  datatype ScrapedRecipe = ScrapedRecipe(
    imageUrl: Option<string>,
    name: string,
    typeName: string,
    typeImageUrl: Option<string>,
    stars: Option<nat>,
    energy: Option<int>,
    sellPrice: Option<int>,
    ingredients: seq<Slot<Entry>>,
    collection: string)

  /** `cols[k]`: IndexError past the last cell. */
  function Cell(cols: seq<Td>, k: nat): Result<Td> {
    if k < |cols| then Ok(cols[k]) else Err(IndexError)
  }

  /** One row of `parse_table`: None for a row without cells, otherwise the
      recipe, with the failures in the order the code meets them. */
  function ParseRow(cols: seq<Td>): (r: Result<Option<ScrapedRecipe>>)
    ensures cols == [] ==> r == Ok(None)
    ensures r.Ok? && cols != [] ==> r.value.Some? && |cols| >= 8
    ensures r.Ok? && r.value.Some? ==>
      && r.value.value.name == cols[1].text
      && r.value.value.collection == cols[7].text
      && RecipesTable.GroupOnlyFirst(r.value.value.ingredients)
    ensures r.Ok? && r.value.Some? ==>
      && ExtractImageUrl(cols[0].firstImg) == Ok(r.value.value.imageUrl)
      && cols[2].firstSpan.Some?
      && r.value.value.typeName == cols[2].firstSpan.value.text
      && ExtractImageUrl(cols[2].firstSpan.value.img) == Ok(r.value.value.typeImageUrl)
      && r.value.value.stars == (if cols[3].starText.Some? then Some(CountStars(cols[3].starText.value)) else None)
      && ToIntField(CleanNumber(cols[4].text)) == Ok(r.value.value.energy)
      && ToIntField(CleanNumber(cols[5].text)) == Ok(r.value.value.sellPrice)
      && ParseIngredientsSpec(cols[6].ingredients) == Ok(r.value.value.ingredients)
    ensures cols != [] && |cols| < 8 ==> r.Err?
  {
    if cols == [] then Ok(None)
    else
      var imageUrl :- ExtractImageUrl(cols[0].firstImg);
      var nameCell :- Cell(cols, 1);
      var typeCell :- Cell(cols, 2);
      var typeSpan :- if typeCell.firstSpan.Some? then Ok(typeCell.firstSpan.value) else Err(AttributeError);
      var typeImageUrl :- ExtractImageUrl(typeSpan.img);
      var starsCell :- Cell(cols, 3);
      var stars := if starsCell.starText.Some? then Some(CountStars(starsCell.starText.value)) else None;
      var energyCell :- Cell(cols, 4);
      var energy := CleanNumber(energyCell.text);
      var sellCell :- Cell(cols, 5);
      var sellPrice := CleanNumber(sellCell.text);
      var ingredientsCell :- Cell(cols, 6);
      var ingredients :- ParseIngredientsSpec(ingredientsCell.ingredients);
      var collectionCell :- Cell(cols, 7);
      var energyValue :- ToIntField(energy);
      var sellPriceValue :- ToIntField(sellPrice);
      ParsedListHasOneLeadingGroup(ingredientsCell.ingredients);
      Ok(Some(ScrapedRecipe(imageUrl, nameCell.text, typeSpan.text, typeImageUrl, stars,
                            energyValue, sellPriceValue, ingredients, collectionCell.text)))
  }

  /** What one pass over the rows returns, given each row's own outcome:
      the first failure, or the recipes of the rows that have cells, in
      order. */
  function Collect(results: seq<Result<Option<ScrapedRecipe>>>): (r: Result<seq<ScrapedRecipe>>)
    ensures r.Ok? <==> forall k :: 0 <= k < |results| ==> results[k].Ok?
    ensures r.Err? ==> exists k :: 0 <= k < |results| && results[k] == Err(r.error)
                           && forall j :: 0 <= j < k ==> results[j].Ok?
    ensures r.Ok? ==> |r.value| <= |results|
    ensures r.Ok? ==> forall x :: x in r.value ==> exists k :: 0 <= k < |results| && results[k] == Ok(Some(x))
  {
    if results == [] then Ok([])
    else
      var init := results[..|results| - 1];
      assert forall k :: 0 <= k < |init| ==> init[k] == results[k];
      match Collect(init)
      case Err(e) => Err(e)
      case Ok(parsed) =>
        match results[|results| - 1]
        case Err(e) => Err(e)
        case Ok(row) => Ok(if row.Some? then parsed + [row.value] else parsed)
  }

  /** One more outcome. */
  lemma CollectSnoc(results: seq<Result<Option<ScrapedRecipe>>>, last: Result<Option<ScrapedRecipe>>)
    ensures Collect(results + [last]) ==
      if Collect(results).Err? then Collect(results)
      else if last.Err? then Err(last.error)
      else if last.value.Some? then Ok(Collect(results).value + [last.value.value])
      else Collect(results)
  {
    assert (results + [last])[..|results|] == results;
  }

  /** `CollectSnoc` on the prefixes of one sequence of outcomes. */
  lemma CollectPrefixStep(results: seq<Result<Option<ScrapedRecipe>>>, i: nat)
    requires i < |results|
    ensures Collect(results[..i + 1]) ==
      if Collect(results[..i]).Err? then Collect(results[..i])
      else if results[i].Err? then Err(results[i].error)
      else if results[i].value.Some? then Ok(Collect(results[..i]).value + [results[i].value.value])
      else Collect(results[..i])
  {
    assert results[..i + 1] == results[..i] + [results[i]];
    CollectSnoc(results[..i], results[i]);
  }

  /** Each row's outcome. */
  function RowResults(rows: seq<seq<Td>>): (r: seq<Result<Option<ScrapedRecipe>>>)
    ensures |r| == |rows| && forall i :: 0 <= i < |rows| ==> r[i] == ParseRow(rows[i])
  {
    seq(|rows|, i requires 0 <= i < |rows| => ParseRow(rows[i]))
  }

  /** `parse_table` as a function of the page's first table (None when there
      is none, where `find_all` on None raises AttributeError). */
  function ParseTableSpec(table: Option<seq<seq<Td>>>): Result<seq<ScrapedRecipe>> {
    match table
    case None => Err(AttributeError)
    case Some(rows) =>
      if rows == [] then Ok([]) else Collect(RowResults(rows[1..]))
  }

  /** The loop of `parse_table` over the rows after the header: rows
      without cells are skipped, the others appended in order. */
  method ParseRowsLoop(rows: seq<seq<Td>>) returns (r: Result<seq<ScrapedRecipe>>)
    ensures r == Collect(RowResults(rows))
  {
    ghost var results := RowResults(rows);
    var parsed: seq<ScrapedRecipe> := [];
    var i := 0;
    while i < |rows|
      invariant 0 <= i <= |rows|
      invariant Collect(results[..i]) == Ok(parsed)
    {
      var row := ParseRow(rows[i]);
      assert row == results[i];
      CollectPrefixStep(results, i);
      if row.Err? {
        CollectErrSticks(results[..i + 1], results);
        return Err(row.error);
      }
      if row.value.Some? {
        parsed := parsed + [row.value.value];
      }
      i := i + 1;
    }
    assert results[..i] == results;
    r := Ok(parsed);
  }

  /** `parse_table`: the page's first table, its header row skipped. */
  method ParseTable(table: Option<seq<seq<Td>>>) returns (r: Result<seq<ScrapedRecipe>>)
    ensures r == ParseTableSpec(table)
  {
    if table.None? {
      return Err(AttributeError);
    }
    if table.value == [] {
      return Ok([]);
    }
    r := ParseRowsLoop(table.value[1..]);
  }

  /** A failure among the first outcomes is the whole pass's failure. */
  lemma {:induction false} CollectErrSticks(prefix: seq<Result<Option<ScrapedRecipe>>>, results: seq<Result<Option<ScrapedRecipe>>>)
    requires prefix <= results && Collect(prefix).Err?
    ensures Collect(results) == Collect(prefix)
    decreases |results|
  {
    if |results| > |prefix| {
      var init := results[..|results| - 1];
      assert prefix <= init;
      CollectErrSticks(prefix, init);
    }
  }

  /** The header row is never read. */
  lemma HeaderRowIgnored(header1: seq<Td>, header2: seq<Td>, rows: seq<seq<Td>>)
    ensures ParseTableSpec(Some([header1] + rows)) == ParseTableSpec(Some([header2] + rows))
  {
    assert ([header1] + rows)[1..] == rows == ([header2] + rows)[1..];
    assert ParseTableSpec(Some([header1] + rows)) == Collect(RowResults(rows));
    assert ParseTableSpec(Some([header2] + rows)) == Collect(RowResults(rows));
  }

  /** A row without cells adds nothing. */
  lemma EmptyRowSkipped(header: seq<Td>, rows: seq<seq<Td>>)
    ensures ParseTableSpec(Some([header] + rows + [[]])) == ParseTableSpec(Some([header] + rows))
  {
    var body := ([header] + rows + [[]])[1..];
    assert body == rows + [[]];
    assert ([header] + rows)[1..] == rows;
    var results := RowResults(body);
    assert results == RowResults(rows) + [Ok(None)];
    CollectSnoc(RowResults(rows), Ok(None));
    assert ParseTableSpec(Some([header] + rows + [[]])) == Collect(results);
    assert ParseTableSpec(Some([header] + rows)) == Collect(RowResults(rows));
  }

  /** Every scraped recipe comes from one row and has its ingredient group
      first, if it has one. */
  lemma ParsedRecipesHaveOneLeadingGroup(table: Option<seq<seq<Td>>>)
    requires ParseTableSpec(table).Ok?
    ensures |ParseTableSpec(table).value| <= |table.value|
    ensures forall x :: x in ParseTableSpec(table).value ==> RecipesTable.GroupOnlyFirst(x.ingredients)
  {
    if table.value != [] {
      var results := RowResults(table.value[1..]);
      forall x | x in ParseTableSpec(table).value
        ensures RecipesTable.GroupOnlyFirst(x.ingredients)
      {
        var k :| 0 <= k < |results| && results[k] == Ok(Some(x));
      }
    }
  }
}
