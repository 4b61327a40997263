/** The two regular expressions of the critter scrapers: the reward quantity
    `\((\d+(?:-\d+)?)\)`, searched for its first match and read through its
    group, and the citation marker `\[\d+\]`, removed everywhere. Digits are
    the ASCII digits. */
module Patterns {
  import opened Base
  import opened Strings

  /** The text of a quantity: digits, or digits, '-' and digits. */
  predicate IsQuantityText(q: string) {
    || (q != [] && AllDigits(q))
    || exists k :: 0 < k < |q| - 1 && q[k] == '-' && AllDigits(q[..k]) && AllDigits(q[k + 1..])
  }

  /** The end of the run of digits that starts at index `i`. */
  function DigitsEnd(s: string, i: nat): (e: nat)
    requires i <= |s|
    ensures i <= e <= |s|
    ensures e == |s| || !IsDigit(s[e])
    decreases |s| - i
  {
    if i < |s| && IsDigit(s[i]) then DigitsEnd(s, i + 1) else i
  }

  /** Every character of the run is a digit. */
  lemma {:induction false} DigitsEndRun(s: string, i: nat)
    requires i <= |s|
    ensures forall k :: i <= k < DigitsEnd(s, i) ==> IsDigit(s[k])
    decreases |s| - i
  {
    if i < |s| && IsDigit(s[i]) {
      DigitsEndRun(s, i + 1);
    }
  }

  /** The run at `i` is exactly the digits `d` when a non-digit, or the end
      of the text, follows them. */
  lemma {:induction false} DigitsEndOf(s: string, i: nat, d: string)
    requires i + |d| <= |s| && s[i..i + |d|] == d && AllDigits(d)
    requires i + |d| == |s| || !IsDigit(s[i + |d|])
    ensures DigitsEnd(s, i) == i + |d|
    decreases |d|
  {
    if d != [] {
      assert s[i] == d[0];
      assert s[i + 1..i + 1 + |d[1..]|] == d[1..];
      DigitsEndOf(s, i + 1, d[1..]);
    }
  }

  /** The group of a quantity match that starts at index `j`, or None when
      no match starts there. The first digit run is greedy; since neither
      '-' nor ')' is a digit, giving a digit back never helps, and the
      optional second part is tried before it is dropped. */
  function QuantityAt(s: string, j: nat): Option<string> {
    if j < |s| && s[j] == '(' then
      var e := DigitsEnd(s, j + 1);
      if e == j + 1 then None
      else if e < |s| && s[e] == ')' then Some(s[j + 1..e])
      else if e < |s| && s[e] == '-' then
        var f := DigitsEnd(s, e + 1);
        if f > e + 1 && f < |s| && s[f] == ')' then Some(s[j + 1..f]) else None
      else None
    else None
  }

  /** A match at `j` is "(", the group's text, and ")". */
  lemma QuantityAtShape(s: string, j: nat)
    ensures var r := QuantityAt(s, j);
      r.Some? ==>
        && j + |r.value| + 2 <= |s|
        && s[j] == '(' && s[j + 1..j + 1 + |r.value|] == r.value && s[j + 1 + |r.value|] == ')'
        && IsQuantityText(r.value)
  {
    var r := QuantityAt(s, j);
    if r.Some? {
      var e := DigitsEnd(s, j + 1);
      RunIsDigits(s, j + 1);
      if !(s[e] == ')') {
        var f := DigitsEnd(s, e + 1);
        RunIsDigits(s, e + 1);
        var q := s[j + 1..f];
        var k := e - j - 1;
        assert q[..k] == s[j + 1..e] && q[k + 1..] == s[e + 1..f];
        RangeIsQuantity(q, k);
      }
    }
  }

  /** The run read from `i` is a string of digits. */
  lemma RunIsDigits(s: string, i: nat)
    requires i <= |s|
    ensures AllDigits(s[i..DigitsEnd(s, i)])
  {
    var e := DigitsEnd(s, i);
    DigitsEndRun(s, i);
    assert forall k :: i <= k < e ==> s[i..e][k - i] == s[k];
  }

  /** Digits, '-' at `k`, digits. */
  lemma RangeIsQuantity(q: string, k: nat)
    requires 0 < k < |q| - 1 && q[k] == '-' && AllDigits(q[..k]) && AllDigits(q[k + 1..])
    ensures IsQuantityText(q)
  {
  }

  /** The first match at or after index `j`. */
  function QuantitySearchFrom(s: string, j: nat): Option<string>
    decreases |s| - j
  {
    if j > |s| then None
    else if QuantityAt(s, j).Some? then QuantityAt(s, j)
    else QuantitySearchFrom(s, j + 1)
  }

  /** The search from `j` finds the leftmost match at or after `j`, and
      finds nothing only when no match starts there. */
  lemma {:induction false} SearchFindsLeftmost(s: string, j: nat)
    ensures var r := QuantitySearchFrom(s, j);
      && (r.Some? ==> exists k :: j <= k <= |s| && QuantityAt(s, k) == r
                        && forall i :: j <= i < k ==> QuantityAt(s, i).None?)
      && (r.None? ==> forall i :: j <= i <= |s| ==> QuantityAt(s, i).None?)
    decreases |s| - j
  {
    if j <= |s| && QuantityAt(s, j).None? {
      SearchFindsLeftmost(s, j + 1);
      var r := QuantitySearchFrom(s, j + 1);
      assert QuantitySearchFrom(s, j) == r;
      if r.Some? {
        var k :| j + 1 <= k <= |s| && QuantityAt(s, k) == r
                 && forall i :: j + 1 <= i < k ==> QuantityAt(s, i).None?;
        assert forall i :: j <= i < k ==> QuantityAt(s, i).None?;
      }
    }
  }

  /** `re.search(...)` / `s.match(...)` and then group 1: the group of the
      leftmost match, or None. */
  function QuantitySearch(s: string): (r: Option<string>)
    ensures r.Some? ==> IsQuantityText(r.value)
    ensures r.None? <==> forall i :: 0 <= i <= |s| ==> QuantityAt(s, i).None?
  {
    SearchFindsLeftmost(s, 0);
    var r := QuantitySearchFrom(s, 0);
    if r.Some? then
      var k :| 0 <= k <= |s| && QuantityAt(s, k) == r;
      QuantityAtShape(s, k);
      r
    else r
  }

  /** The search yields the group of the leftmost match, which is a
      quantity, and yields nothing only when no match starts anywhere. */
  lemma QuantitySearchIsLeftmost(s: string)
    ensures var r := QuantitySearch(s);
      && (r.Some? ==> IsQuantityText(r.value))
      && (r.Some? ==> exists k :: 0 <= k <= |s| && QuantityAt(s, k) == r
                        && forall i :: 0 <= i < k ==> QuantityAt(s, i).None?)
      && (r.None? ==> forall i :: 0 <= i <= |s| ==> QuantityAt(s, i).None?)
  {
    SearchFindsLeftmost(s, 0);
    var r := QuantitySearch(s);
    if r.Some? {
      var k :| 0 <= k <= |s| && QuantityAt(s, k) == r;
      QuantityAtShape(s, k);
    }
  }

  /** A text without '(' has no quantity. */
  lemma NoParenthesisNoQuantity(s: string)
    requires '(' !in s
    ensures QuantitySearch(s) == None
  {
    forall i | 0 <= i <= |s|
      ensures QuantityAt(s, i).None?
    {
      if i < |s| {
        assert s[i] in s;
      }
    }
    QuantitySearchIsLeftmost(s);
  }

  /** "Name (n)" yields "n". */
  lemma QuantityOfCount(name: string, n: nat, rest: string)
    requires '(' !in name
    ensures QuantitySearch(name + "(" + NatToString(n) + ")" + rest) == Some(NatToString(n))
  {
    var digits := NatToString(n);
    var s := name + "(" + digits + ")" + rest;
    forall i | 0 <= i < |name|
      ensures QuantityAt(s, i).None?
    {
      assert s[i] == name[i] && name[i] in name;
    }
    var j := |name|;
    assert s[j] == '(' && s[j + 1..] == digits + ([')'] + rest);
    RunAt(s, j + 1, digits, ')', rest);
    assert QuantityAt(s, j) == Some(digits);
    LeftmostQuantity(s, j);
  }

  /** A run of the digits `d` at `i`, then `stop`, then `tail`. */
  lemma RunAt(s: string, i: nat, d: string, stop: char, tail: string)
    requires i <= |s| && s[i..] == d + ([stop] + tail)
    requires AllDigits(d) && !IsDigit(stop)
    ensures DigitsEnd(s, i) == i + |d|
    ensures i + |d| < |s| && s[i + |d|] == stop
    ensures s[i..i + |d|] == d && s[i + |d| + 1..] == tail
  {
    assert s[i..][..|d|] == d && s[i..][|d|] == stop && s[i..][|d| + 1..] == tail;
    DigitsEndOf(s, i, d);
  }

  /** The match at a '(' followed by "a-b)". */
  lemma QuantityAtRange(s: string, j: nat, first: string, second: string, rest: string)
    requires first != [] && AllDigits(first) && second != [] && AllDigits(second)
    requires j < |s| && s[j] == '(' && s[j + 1..] == first + ("-" + (second + (")" + rest)))
    ensures QuantityAt(s, j) == Some(first + "-" + second)
  {
    var e := j + 1 + |first|;
    var f := e + 1 + |second|;
    RangeRuns(s, j, e, f, first, second, rest);
    RangeAt(s, j, e, f);
  }

  /** The two digit runs of "a-b)" after the '(' at `j`: the first ends at
      the '-' at `e`, the second at the ')' at `f`. */
  lemma RangeRuns(s: string, j: nat, e: nat, f: nat, first: string, second: string, rest: string)
    requires AllDigits(first) && AllDigits(second)
    requires e == j + 1 + |first| && f == e + 1 + |second|
    requires j < |s| && s[j + 1..] == first + ("-" + (second + (")" + rest)))
    ensures DigitsEnd(s, j + 1) == e && e < |s| && s[e] == '-'
    ensures DigitsEnd(s, e + 1) == f && f < |s| && s[f] == ')'
    ensures s[j + 1..f] == first + "-" + second
  {
    RunAt(s, j + 1, first, '-', second + (")" + rest));
    RunAt(s, e + 1, second, ')', rest);
    RangeText(s[j + 1..], first, second, rest);
    assert s[j + 1..f] == s[j + 1..][..f - j - 1];
  }

  /** The text of "a-b)..." up to the ')'. */
  lemma RangeText(t: string, first: string, second: string, rest: string)
    requires t == first + ("-" + (second + (")" + rest)))
    ensures t[..|first| + 1 + |second|] == first + "-" + second
  {
    assert t == (first + "-" + second) + (")" + rest);
  }

  /** A range match: '(' at `j`, digits up to the '-' at `e`, digits up to
      the ')' at `f`. */
  lemma RangeAt(s: string, j: nat, e: nat, f: nat)
    requires j < |s| && s[j] == '('
    requires DigitsEnd(s, j + 1) == e && j + 1 < e < |s| && s[e] == '-'
    requires DigitsEnd(s, e + 1) == f && e + 1 < f < |s| && s[f] == ')'
    ensures QuantityAt(s, j) == Some(s[j + 1..f])
  {
  }

  /** "Name (a-b)" yields "a-b". */
  lemma QuantityOfRange(name: string, first: string, second: string, rest: string)
    requires '(' !in name
    requires first != [] && AllDigits(first) && second != [] && AllDigits(second)
    ensures QuantitySearch(name + "(" + first + "-" + second + ")" + rest) == Some(first + "-" + second)
  {
    var s := name + ("(" + (first + ("-" + (second + (")" + rest)))));
    assert name + "(" + first + "-" + second + ")" + rest == s;
    forall i | 0 <= i < |name|
      ensures QuantityAt(s, i).None?
    {
      assert s[i] == name[i] && name[i] in name;
    }
    assert s[|name|] == '(' && s[|name| + 1..] == first + ("-" + (second + (")" + rest)));
    QuantityAtRange(s, |name|, first, second, rest);
    LeftmostQuantity(s, |name|);
  }

  /** The leftmost match is the one at `j` when none starts before it. */
  lemma LeftmostQuantity(s: string, j: nat)
    requires j <= |s| && QuantityAt(s, j).Some?
    requires forall i :: 0 <= i < j ==> QuantityAt(s, i).None?
    ensures QuantitySearch(s) == QuantityAt(s, j)
  {
    QuantitySearchIsLeftmost(s);
    var r := QuantitySearch(s);
    assert r.Some?;
    var k :| 0 <= k <= |s| && QuantityAt(s, k) == r && forall i :: 0 <= i < k ==> QuantityAt(s, i).None?;
    assert k == j;
  }

  /** The length of a citation marker `[digits]` at the start of `s`, or None. */
  function CitationLength(s: string): (r: Option<nat>)
    ensures r.Some? ==> 3 <= r.value <= |s| && s[0] == '[' && s[r.value - 1] == ']'
                        && AllDigits(s[1..r.value - 1])
    ensures s == [] || s[0] != '[' ==> r.None?
  {
    if s != [] && s[0] == '[' then
      var e := DigitsEnd(s, 1);
      DigitsEndRun(s, 1);
      assert forall k :: 1 <= k < e ==> s[1..e][k - 1] == s[k];
      if e > 1 && e < |s| && s[e] == ']' then Some(e + 1) else None
    else None
  }

  /** `re.sub(r'\[\d+\]', '', text)`: matches are removed left to right; where
      none starts, the character is kept and the scan moves on by one. */
  function RemoveCitations(s: string): (r: string)
    ensures |r| <= |s|
    decreases |s|
  {
    if s == [] then []
    else match CitationLength(s)
      case Some(k) => RemoveCitations(s[k..])
      case None => [s[0]] + RemoveCitations(s[1..])
  }

  /** Text without '[' is left alone. */
  lemma {:induction false} RemoveCitationsWithoutBracket(s: string)
    requires '[' !in s
    ensures RemoveCitations(s) == s
  {
    if s != [] {
      assert s[0] in s;
      assert CitationLength(s) == None;
      assert forall c :: c in s[1..] ==> c in s;
      RemoveCitationsWithoutBracket(s[1..]);
      assert s == [s[0]] + s[1..];
    }
  }

  /** A marker in front of '[' is read the same as on its own: the digit
      run stops at the '[', which does not close the marker. */
  lemma CitationLengthBeforeBracket(x: string, rest: string)
    requires x != [] && rest != [] && rest[0] == '['
    ensures CitationLength(x + rest) == CitationLength(x)
  {
    var s := x + rest;
    if x[0] == '[' {
      var d := DigitsEnd(x, 1);
      DigitsEndRun(x, 1);
      assert forall k :: 1 <= k < d ==> x[1..d][k - 1] == x[k];
      assert s[1..d] == x[1..d];
      assert s[d] == if d < |x| then x[d] else '[';
      DigitsEndOf(s, 1, x[1..d]);
    }
  }

  /** Text in front of a '[' is scanned as on its own: no match starting in
      it reaches past the '['. */
  lemma {:induction false} RemoveCitationsBeforeBracket(x: string, rest: string)
    requires rest != [] && rest[0] == '['
    ensures RemoveCitations(x + rest) == RemoveCitations(x) + RemoveCitations(rest)
    decreases |x|
  {
    var s := x + rest;
    if x == [] {
      assert s == rest;
    } else {
      CitationLengthBeforeBracket(x, rest);
      match CitationLength(x)
      case Some(k) =>
        assert RemoveCitations(s) == RemoveCitations(x[k..] + rest) by {
          assert s[k..] == x[k..] + rest;
        }
        RemoveCitationsBeforeBracket(x[k..], rest);
      case None =>
        assert RemoveCitations(s) == [x[0]] + RemoveCitations(x[1..] + rest) by {
          assert s[0] == x[0] && s[1..] == x[1..] + rest;
        }
        RemoveCitationsBeforeBracket(x[1..], rest);
    }
  }

  /** A '[' that opens no marker (no digits then ']' follow it) is kept,
      and the scan goes on after it. */
  lemma UnmatchedBracketKept(y: string)
    requires forall n :: 1 <= n < |y| && AllDigits(y[..n]) ==> y[n] != ']'
    ensures RemoveCitations("[" + y) == "[" + RemoveCitations(y)
  {
    MarkerAfterBracket(y);
    assert ("[" + y)[1..] == y;
  }

  /** A marker after '[' is digits closed by ']'. */
  lemma MarkerAfterBracket(y: string)
    ensures CitationLength("[" + y).Some? ==>
      exists n :: 1 <= n < |y| && AllDigits(y[..n]) && y[n] == ']'
  {
    var s := "[" + y;
    var r := CitationLength(s);
    if r.Some? {
      var n := r.value - 2;
      assert s[1..n + 1] == y[..n];
      assert s[n + 1] == y[n];
    }
  }

  /** A marker at the front is dropped. */
  lemma LeadingMarkerRemoved(digits: string, y: string)
    requires digits != [] && AllDigits(digits)
    ensures RemoveCitations("[" + digits + "]" + y) == RemoveCitations(y)
  {
    var s := "[" + digits + "]" + y;
    assert s[0] == '[' && s[1..] == digits + ([']'] + y);
    RunAt(s, 1, digits, ']', y);
    assert CitationLength(s) == Some(|digits| + 2);
  }

  /** Removing a marker between two texts leaves each text as it would be
      on its own. */
  lemma RemoveCitationsAround(x: string, digits: string, y: string)
    requires digits != [] && AllDigits(digits)
    ensures RemoveCitations(x + "[" + digits + "]" + y) == RemoveCitations(x) + RemoveCitations(y)
  {
    var rest := "[" + digits + "]" + y;
    assert x + "[" + digits + "]" + y == x + rest;
    RemoveCitationsBeforeBracket(x, rest);
    LeadingMarkerRemoved(digits, y);
  }

  /** Removal is not idempotent: a marker can be assembled from the pieces
      around one that was removed. */
  lemma RemovalCanLeaveAMarker()
    ensures RemoveCitations("[1[2]]") == "[1]"
  {
    var s := "[1[2]]";
    DigitsEndOf(s, 1, "1");
    assert CitationLength(s) == None;
    assert CitationLength(s[1..]) == None;
    var t := s[2..];
    assert t == "[2]]";
    DigitsEndOf(t, 1, "2");
    assert CitationLength(t) == Some(3);
    assert t[3..] == "]";
    assert CitationLength("]") == None;
    assert RemoveCitations("]") == "]";
  }
}
