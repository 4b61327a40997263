/** The ingredient picker: a popover listing the items that are not hidden,
    with an "No more items." marker when none is left, that closes when an
    item is chosen. */
module Combobox {
  import opened Base

  datatype Item = Item(value: string, text: string, imageUrl: string)

  predicate IsHidden(hidden: Option<seq<string>>, value: string) {
    hidden.Some? && value in hidden.value
  }

  /** `list.filter(item => !hidden?.includes(item.value))`. */
  function Visible(list: seq<Item>, hidden: Option<seq<string>>): (r: seq<Item>)
    ensures |r| <= |list|
    ensures forall k :: 0 <= k < |r| ==> !IsHidden(hidden, r[k].value)
  {
    if list == [] then []
    else if IsHidden(hidden, list[0].value) then Visible(list[1..], hidden)
    else [list[0]] + Visible(list[1..], hidden)
  }

  /** No visible item is hidden, and every item that is not hidden is visible. */
  lemma {:induction false} VisibleMembers(list: seq<Item>, hidden: Option<seq<string>>)
    ensures forall x :: x in Visible(list, hidden) <==> x in list && !IsHidden(hidden, x.value)
  {
    if list != [] {
      VisibleMembers(list[1..], hidden);
      assert list == [list[0]] + list[1..];
    }
  }

  /** Filtering keeps the relative order of the items it keeps. */
  lemma {:induction false} VisibleKeepsOrder(a: seq<Item>, b: seq<Item>, hidden: Option<seq<string>>)
    ensures Visible(a + b, hidden) == Visible(a, hidden) + Visible(b, hidden)
  {
    if a == [] {
      assert a + b == b;
    } else {
      assert (a + b)[0] == a[0] && (a + b)[1..] == a[1..] + b;
      VisibleKeepsOrder(a[1..], b, hidden);
      if IsHidden(hidden, a[0].value) {
        assert Visible(a, hidden) == Visible(a[1..], hidden);
      } else {
        assert Visible(a, hidden) == [a[0]] + Visible(a[1..], hidden);
        assert Visible(a + b, hidden) == [a[0]] + Visible(a[1..] + b, hidden);
      }
    }
  }

  /** Without a hidden list every item is shown, in order. */
  lemma {:induction false} NothingHidden(list: seq<Item>)
    ensures Visible(list, None) == list
  {
    if list != [] {
      NothingHidden(list[1..]);
    }
  }

  /** "No more items." is shown exactly when every item is hidden. */
  predicate ShowsNoMoreItems(list: seq<Item>, hidden: Option<seq<string>>) {
    |Visible(list, hidden)| == 0
  }

  lemma NoMoreItemsWhenAllHidden(list: seq<Item>, hidden: Option<seq<string>>)
    ensures ShowsNoMoreItems(list, hidden) <==> forall i :: 0 <= i < |list| ==> IsHidden(hidden, list[i].value)
  {
    VisibleMembers(list, hidden);
    if !ShowsNoMoreItems(list, hidden) {
      assert Visible(list, hidden)[0] in Visible(list, hidden);
    } else {
      forall i | 0 <= i < |list|
        ensures IsHidden(hidden, list[i].value)
      {
        assert list[i] in list;
      }
    }
  }

  /** The component's state: whether the popover is open. */
  class Picker {
    var open: bool

    constructor()
      ensures !open
    {
      open := false;
    }

    /** The popover's `onOpenChange`. */
    method OpenChange(o: bool)
      modifies this
      ensures open == o
    {
      open := o;
    }

    /** Choosing an item: its value goes to the `onSelect` callback, which
        the method returns, and the popover closes. */
    method Select(item: Item) returns (selected: string)
      modifies this
      ensures selected == item.value
      ensures !open
    {
      selected := item.value;
      open := false;
    }
  }
}
