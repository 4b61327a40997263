/** The string primitives of JavaScript and Python that the modelled code
    relies on: `parseInt`, number-to-string, `indexOf`, `replace` and `split`
    with a literal separator, `trim`/`strip`, `toLowerCase`/`lower` and a
    three-way string comparison. Characters are compared by code point. */
module Strings {
  import opened Base

  predicate IsDigit(c: char) {
    '0' <= c <= '9'
  }

  predicate AllDigits(s: string) {
    forall i :: 0 <= i < |s| ==> IsDigit(s[i])
  }

  function DigitChar(d: nat): (c: char)
    requires d < 10
    ensures IsDigit(c)
  {
    (d + '0' as int) as char
  }

  /** The decimal representation of a natural number, without sign or leading zeros. */
  function NatToString(n: nat): (s: string)
    ensures |s| > 0 && AllDigits(s)
  {
    if n < 10 then [DigitChar(n)] else NatToString(n / 10) + [DigitChar(n % 10)]
  }

  /** JavaScript's conversion of an integral number to a string (`n + ' '`). */
  function NumberToString(n: int): string {
    if n < 0 then "-" + NatToString(-n) else NatToString(n)
  }

  /** The value of a string of decimal digits. */
  function DigitsValue(s: string): nat
    requires AllDigits(s)
  {
    if s == [] then 0 else DigitsValue(s[..|s| - 1]) * 10 + (s[|s| - 1] as int - '0' as int)
  }

  lemma {:induction false} DigitsValueOfNatToString(n: nat)
    ensures DigitsValue(NatToString(n)) == n
  {
    if n >= 10 {
      var s := NatToString(n);
      assert s[..|s| - 1] == NatToString(n / 10);
      DigitsValueOfNatToString(n / 10);
    }
  }

  /** The longest prefix of `s` whose characters all satisfy `keep`. */
  function TakeWhile(s: string, keep: char -> bool): (r: string)
    ensures |r| <= |s| && r == s[..|r|]
    ensures forall i :: 0 <= i < |r| ==> keep(r[i])
    ensures |r| == |s| || !keep(s[|r|])
  {
    if s != [] && keep(s[0]) then [s[0]] + TakeWhile(s[1..], keep) else []
  }

  /** The run `TakeWhile` reads ends where the first character it refuses
      stands. */
  lemma TakeWhileOfPrefix(u: string, rest: string, keep: char -> bool)
    requires forall i :: 0 <= i < |u| ==> keep(u[i])
    requires rest == [] || !keep(rest[0])
    ensures TakeWhile(u + rest, keep) == u
  {
    var s := u + rest;
    var t := TakeWhile(s, keep);
    assert t == s[..|u|] == u;
  }

  /** Every character of `t` satisfies `p`. */
  predicate AllSatisfy(t: string, p: char -> bool) {
    forall i :: 0 <= i < |t| ==> p(t[i])
  }

  /** `s` without its leading characters that satisfy `isSpace`. */
  function TrimStart(s: string, isSpace: char -> bool): (r: string)
    ensures |r| <= |s| && r == s[|s| - |r|..]
    ensures r == [] || !isSpace(r[0])
    ensures AllSatisfy(s[..|s| - |r|], isSpace)
  {
    if s != [] && isSpace(s[0]) then TrimStart(s[1..], isSpace) else s
  }

  /** `s` without its trailing characters that satisfy `isSpace`. */
  function TrimEnd(s: string, isSpace: char -> bool): (r: string)
    ensures |r| <= |s| && r == s[..|r|]
    ensures r == [] || !isSpace(r[|r| - 1])
    ensures AllSatisfy(s[|r|..], isSpace)
  {
    if s != [] && isSpace(s[|s| - 1]) then TrimEnd(s[..|s| - 1], isSpace) else s
  }

  /** The white space and line terminators that JavaScript's `trim` and
      `parseInt` skip. */
  predicate IsJsSpace(c: char) {
    || '\t' <= c <= '\r'
    || c == ' ' || c == '\U{00A0}' || c == '\U{1680}'
    || '\U{2000}' <= c <= '\U{200A}'
    || c == '\U{2028}' || c == '\U{2029}' || c == '\U{202F}' || c == '\U{205F}'
    || c == '\U{3000}' || c == '\U{FEFF}'
  }

  /** The characters for which Python's `str.isspace` holds, which `strip()`
      and `split()` treat as white space. */
  predicate IsPySpace(c: char) {
    || '\t' <= c <= '\r'
    || '\U{001C}' <= c <= '\U{001F}'
    || c == ' ' || c == '\U{0085}' || c == '\U{00A0}' || c == '\U{1680}'
    || '\U{2000}' <= c <= '\U{200A}'
    || c == '\U{2028}' || c == '\U{2029}' || c == '\U{202F}' || c == '\U{205F}'
    || c == '\U{3000}'
  }

  /** `r` is the piece of `s` that starts at `i` and has only `isSpace`
      characters before and after it in `s`. */
  predicate PaddedAt(s: string, r: string, i: int, isSpace: char -> bool) {
    0 <= i <= |s| - |r| && r == s[i..i + |r|]
      && AllSatisfy(s[..i], isSpace) && AllSatisfy(s[i + |r|..], isSpace)
  }

  /** Both trims together: the middle of `s` between its leading and its
      trailing run of spaces. */
  function Trim(s: string, isSpace: char -> bool): (r: string)
    ensures |r| <= |s|
    ensures r == [] || (!isSpace(r[0]) && !isSpace(r[|r| - 1]))
    ensures exists i :: PaddedAt(s, r, i, isSpace)
  {
    var t := TrimStart(s, isSpace);
    var i := |s| - |t|;
    var r := TrimEnd(t, isSpace);
    assert s[i + |r|..] == t[|r|..];
    assert PaddedAt(s, r, i, isSpace);
    r
  }

  /** JavaScript's `s.trim()`. */
  function JsTrim(s: string): (r: string)
    ensures |r| <= |s|
    ensures r == [] || (!IsJsSpace(r[0]) && !IsJsSpace(r[|r| - 1]))
    ensures exists i :: PaddedAt(s, r, i, IsJsSpace)
    ensures (s == [] || (!IsJsSpace(s[0]) && !IsJsSpace(s[|s| - 1]))) ==> r == s
  {
    Trim(s, IsJsSpace)
  }

  /** Python's `s.strip()`. */
  function PyStrip(s: string): (r: string)
    ensures |r| <= |s|
    ensures r == [] || (!IsPySpace(r[0]) && !IsPySpace(r[|r| - 1]))
    ensures exists i :: PaddedAt(s, r, i, IsPySpace)
    ensures (s == [] || (!IsPySpace(s[0]) && !IsPySpace(s[|s| - 1]))) ==> r == s
  {
    Trim(s, IsPySpace)
  }

  /** JavaScript's `parseInt(s)` for decimal input: leading white space and
      one sign are skipped, then the longest run of digits is read; NaN when
      there is none. */
  function ParseInt(s: string): (r: JsNumber)
  {
    var t := TrimStart(s, IsJsSpace);
    assert s != [] && AllDigits(s) ==> t == s && TakeWhile(s, IsDigit) == s by {
      if s != [] && AllDigits(s) {
        assert IsDigit(s[0]);
        assert !IsJsSpace(s[0]);
      }
    }
    assert AllSatisfy(s, IsJsSpace) ==> t == [];
    var negative := |t| > 0 && t[0] == '-';
    var unsigned := if |t| > 0 && (t[0] == '-' || t[0] == '+') then t[1..] else t;
    var digits := TakeWhile(unsigned, IsDigit);
    if digits == [] then NaN
    else
      var v: int := DigitsValue(digits);
      if negative then Num(-v) else Num(v)
  }

  /** On a plain string of digits `parseInt` is the decimal value. */
  lemma ParseIntOfDigits(s: string)
    requires s != [] && AllDigits(s)
    ensures ParseInt(s) == Num(DigitsValue(s))
  {
    assert IsDigit(s[0]);
    assert !IsJsSpace(s[0]);
    assert TrimStart(s, IsJsSpace) == s;
    assert s[0] != '-' && s[0] != '+';
    assert TakeWhile(s, IsDigit) == s;
  }

  lemma ParseIntOfNatToString(n: nat)
    ensures ParseInt(NatToString(n)) == Num(n)
  {
    ParseIntOfDigits(NatToString(n));
    DigitsValueOfNatToString(n);
  }

  /** `p` occurs in `s` starting at index `j`. */
  predicate OccursAt(s: string, p: string, j: int) {
    0 <= j && j + |p| <= |s| && s[j..j + |p|] == p
  }

  lemma OccursAtShift(s: string, p: string)
    requires |s| > 0
    ensures forall j :: 1 <= j ==> (OccursAt(s, p, j) <==> OccursAt(s[1..], p, j - 1))
  {
    forall j | 1 <= j
      ensures OccursAt(s, p, j) <==> OccursAt(s[1..], p, j - 1)
    {
      if j + |p| <= |s| {
        assert s[1..][j - 1..j - 1 + |p|] == s[j..j + |p|];
      }
    }
  }

  /** JavaScript's `s.indexOf(p)`: the first index at which `p` occurs. */
  function IndexOf(s: string, p: string): (r: Option<nat>)
    requires |p| > 0
    ensures r.Some? ==> OccursAt(s, p, r.value)
    ensures r.Some? ==> forall j :: 0 <= j < r.value ==> !OccursAt(s, p, j)
    ensures r.None? ==> forall j :: !OccursAt(s, p, j)
    decreases |s|
  {
    if |s| < |p| then None
    else if s[..|p|] == p then Some(0)
    else
      OccursAtShift(s, p);
      match IndexOf(s[1..], p)
      case None => None
      case Some(i) => Some(i + 1)
  }

  lemma IndexOfIs(s: string, p: string, i: nat)
    requires |p| > 0 && OccursAt(s, p, i)
    requires forall j :: 0 <= j < i ==> !OccursAt(s, p, j)
    ensures IndexOf(s, p) == Some(i)
  {
  }

  /** JavaScript's `s.replace(pattern, replacement)` with a string pattern:
      only the first occurrence is replaced. */
  function ReplaceFirst(s: string, pattern: string, replacement: string): (r: string)
    requires |pattern| > 0
    ensures (forall j :: !OccursAt(s, pattern, j)) ==> r == s
    ensures forall i ::
      (OccursAt(s, pattern, i) && (forall j :: 0 <= j < i ==> !OccursAt(s, pattern, j)))
      ==> r == s[..i] + replacement + s[i + |pattern|..]
  {
    match IndexOf(s, pattern)
    case None => s
    case Some(i) => s[..i] + replacement + s[i + |pattern|..]
  }

  /** The first two elements of JavaScript's `s.split(sep)` as
      `const [a, b] = s.split(sep)` binds them: `b` is undefined when `sep`
      does not occur, and stops at the next occurrence otherwise. */
  function SplitTwo(s: string, sep: string): (r: (string, Option<string>))
    requires |sep| > 0
    ensures r.1.None? <==> forall j :: !OccursAt(s, sep, j)
    ensures r.1.None? ==> r.0 == s
    ensures r.1.Some? ==>
      OccursAt(s, sep, |r.0|) && r.0 <= s && forall j :: 0 <= j < |r.0| ==> !OccursAt(s, sep, j)
    ensures r.1.Some? ==>
      (|r.0| + |sep| <= |s| && r.1.value <= s[|r.0| + |sep|..]
       && forall j :: |r.0| + |sep| <= j < |r.0| + |sep| + |r.1.value| ==> !OccursAt(s, sep, j))
    ensures r.1.Some? ==> |r.0| + |sep| + |r.1.value| == |s| || OccursAt(s, sep, |r.0| + |sep| + |r.1.value|)
  {
    match IndexOf(s, sep)
    case None => (s, None)
    case Some(i) =>
      var rest := s[i + |sep|..];
      OccursAtDrop(s, sep, i + |sep|);
      match IndexOf(rest, sep)
      case None =>
        (s[..i], Some(rest))
      case Some(j) =>
        (s[..i], Some(rest[..j]))
  }

  /** An occurrence in `s` from `d` on is one in `s[d..]`, moved by `d`. */
  lemma OccursAtDrop(s: string, p: string, d: nat)
    requires d <= |s|
    ensures forall j :: d <= j ==> (OccursAt(s, p, j) <==> OccursAt(s[d..], p, j - d))
  {
    forall j | d <= j
      ensures OccursAt(s, p, j) <==> OccursAt(s[d..], p, j - d)
    {
      if j + |p| <= |s| {
        assert s[d..][j - d..j - d + |p|] == s[j..j + |p|];
      }
    }
  }

  /** `p` first occurs in `x + p + y` right after `x` when one of its
      characters occurs neither in `x` nor earlier in `p`. */
  lemma FirstOccurrenceByChar(x: string, p: string, y: string, k: nat)
    requires k < |p| && p[k] !in x && p[k] !in p[..k]
    ensures IndexOf(x + p + y, p) == Some(|x|)
  {
    var s := x + p + y;
    forall j | 0 <= j < |x|
      ensures !OccursAt(s, p, j)
    {
      if j + k < |x| {
        assert s[j + k] == x[j + k];
      } else {
        assert s[j + k] == p[..k][j + k - |x|];
      }
      if j + |p| <= |s| {
        assert s[j..j + |p|][k] == s[j + k];
      }
    }
    assert s[|x|..|x| + |p|] == p;
    IndexOfIs(s, p, |x|);
  }

  lemma SplitTwoByChar(x: string, sep: string, y: string, k: nat)
    requires k < |sep| && sep[k] !in x && sep[k] !in sep[..k] && sep[k] !in y
    ensures SplitTwo(x + sep + y, sep) == (x, Some(y))
  {
    var s := x + sep + y;
    FirstOccurrenceByChar(x, sep, y, k);
    assert s[|x| + |sep|..] == y;
    assert s[..|x|] == x;
    NoOccurrenceWithout(y, sep, sep[k]);
  }

  /** `replace` rewrites the first occurrence only: what follows it is kept
      as it is, even where it contains the pattern again. */
  lemma {:induction false} ReplaceFirstOf(x: string, p: string, y: string, replacement: string, k: nat)
    requires k < |p| && p[k] !in x && p[k] !in p[..k]
    ensures ReplaceFirst(x + p + y, p, replacement) == x + replacement + y
  {
    var s := x + p + y;
    FirstOccurrenceByChar(x, p, y, k);
    assert s[..|x|] == x;
    assert s[|x| + |p|..] == y;
  }

  /** No occurrence of `p` in `s` can start where `s` does not hold `p[0]`. */
  lemma NoOccurrenceWithout(s: string, p: string, c: char)
    requires c in p && c !in s
    ensures forall j :: !OccursAt(s, p, j)
  {
  }

  function LowerChar(c: char): char {
    if 'A' <= c <= 'Z' then (c as int + 32) as char else c
  }

  /** `toLowerCase()` / `lower()` on the ASCII letters. */
  function Lower(s: string): (r: string)
    ensures |r| == |s|
    ensures forall i :: 0 <= i < |r| ==> !('A' <= r[i] <= 'Z')
    ensures forall i :: 0 <= i < |s| && !('A' <= s[i] <= 'Z') ==> r[i] == s[i]
    ensures forall i :: 0 <= i < |s| && 'A' <= s[i] <= 'Z' ==> r[i] == (s[i] as int + 32) as char
  {
    seq(|s|, i requires 0 <= i < |s| => LowerChar(s[i]))
  }

  predicate IsPyTokenChar(c: char) {
    !IsPySpace(c)
  }

  /** Python's `s.split()[0]`: the first maximal run of non-space characters;
      None where Python raises IndexError because there is none. */
  function PyFirstToken(s: string): Option<string> {
    var t := TrimStart(s, IsPySpace);
    if t == [] then None else Some(TakeWhile(t, IsPyTokenChar))
  }

  /** The token is the first one: only white space stands before it, it is
      non-empty and free of white space, and the text ends or white space
      follows it; there is none exactly when the text is all white space. */
  lemma PyFirstTokenCases(s: string)
    ensures var r := PyFirstToken(s);
      && (r.Some? ==> r.value != [] && forall i :: 0 <= i < |r.value| ==> !IsPySpace(r.value[i]))
      && (r.Some? ==> exists k :: FirstTokenAt(s, r.value, k))
      && (r.None? <==> forall i :: 0 <= i < |s| ==> IsPySpace(s[i]))
  {
    var t := TrimStart(s, IsPySpace);
    var k := |s| - |t|;
    assert forall i :: 0 <= i < k ==> s[..k][i] == s[i];
    if t != [] {
      assert s[k] == t[0];
      var u := TakeWhile(t, IsPyTokenChar);
      assert s[k..k + |u|] == u;
      assert k + |u| < |s| ==> s[k + |u|] == t[|u|];
      assert FirstTokenAt(s, u, k);
    }
  }

  /** `t` is a maximal run of non-space characters of `s` starting at `k`,
      with only white space before it. */
  predicate FirstTokenAt(s: string, t: string, k: int) {
    0 <= k <= |s| - |t| && t != [] && s[k..k + |t|] == t
      && AllSatisfy(s[..k], IsPySpace)
      && AllSatisfy(t, IsPyTokenChar)
      && (k + |t| == |s| || IsPySpace(s[k + |t|]))
  }

  /** White space, a token, then nothing or white space: the token is what
      `split()[0]` returns. */
  lemma PyFirstTokenOf(lead: string, t: string, tail: string)
    requires AllSatisfy(lead, IsPySpace) && t != [] && AllSatisfy(t, IsPyTokenChar)
    requires tail == [] || IsPySpace(tail[0])
    ensures PyFirstToken(lead + t + tail) == Some(t)
  {
    assert lead + t + tail == lead + (t + tail);
    TrimStartOfPrefix(lead, t + tail, IsPySpace);
    TakeWhileOfPrefix(t, tail, IsPyTokenChar);
  }

  /** `TrimStart` removes exactly a leading run of spaces that is followed
      by the end of the text or a character that is not a space. */
  lemma {:induction false} TrimStartOfPrefix(lead: string, rest: string, isSpace: char -> bool)
    requires AllSatisfy(lead, isSpace) && (rest == [] || !isSpace(rest[0]))
    ensures TrimStart(lead + rest, isSpace) == rest
  {
    if lead == [] {
      assert lead + rest == rest;
    } else {
      assert (lead + rest)[0] == lead[0] && (lead + rest)[1..] == lead[1..] + rest;
      TrimStartOfPrefix(lead[1..], rest, isSpace);
    }
  }

  /** Python's `s.split(sep)[-1]`: what follows the last occurrence of `sep`. */
  function PyLastPiece(s: string, sep: string): string
    requires |sep| > 0
    decreases |s|
  {
    match IndexOf(s, sep)
    case None => s
    case Some(i) => PyLastPiece(s[i + |sep|..], sep)
  }

  /** The last piece is a suffix of the text in which `sep` does not occur,
      and it is either the whole text or preceded by `sep`. */
  lemma PyLastPieceIsLast(s: string, sep: string)
    requires |sep| > 0
    ensures var r := PyLastPiece(s, sep);
      && |r| <= |s| && r == s[|s| - |r|..] && (forall j :: !OccursAt(r, sep, j))
      && (r == s || OccursAt(s, sep, |s| - |r| - |sep|))
  {
    PyLastPieceIsSuffix(s, sep);
    PyLastPieceFollowsSep(s, sep);
  }

  lemma {:induction false} PyLastPieceIsSuffix(s: string, sep: string)
    requires |sep| > 0
    ensures var r := PyLastPiece(s, sep);
      |r| <= |s| && r == s[|s| - |r|..] && forall j :: !OccursAt(r, sep, j)
    decreases |s|
  {
    match IndexOf(s, sep)
    case None =>
    case Some(i) =>
      var t := s[i + |sep|..];
      PyLastPieceIsSuffix(t, sep);
      var r := PyLastPiece(t, sep);
      assert PyLastPiece(s, sep) == r;
      assert t[|t| - |r|..] == s[|s| - |r|..];
  }

  /** `r` is all of `s`, or `sep` stands right before the suffix `r`. */
  predicate AfterSeparator(s: string, sep: string, r: string) {
    |r| == |s| || OccursAt(s, sep, |s| - |r| - |sep|)
  }

  lemma {:induction false} PyLastPieceFollowsSep(s: string, sep: string)
    requires |sep| > 0
    ensures AfterSeparator(s, sep, PyLastPiece(s, sep))
    decreases |s|
  {
    var o := IndexOf(s, sep);
    if o.Some? {
      var i := o.value;
      var t := s[i + |sep|..];
      var r := PyLastPiece(t, sep);
      assert PyLastPiece(s, sep) == r;
      PyLastPieceFollowsSep(t, sep);
      FollowsSepStep(s, sep, i, t, r);
    } else {
      assert PyLastPiece(s, sep) == s;
    }
  }

  /** One occurrence of `sep`, then a piece that is all of the rest or
      follows another occurrence: the piece follows an occurrence in `s`. */
  lemma FollowsSepStep(s: string, sep: string, i: nat, t: string, r: string)
    requires OccursAt(s, sep, i) && t == s[i + |sep|..]
    requires AfterSeparator(t, sep, r)
    ensures AfterSeparator(s, sep, r)
  {
    if |r| != |t| {
      var j := |t| - |r| - |sep|;
      assert t[j..j + |sep|] == s[i + |sep| + j..i + |sep| + j + |sep|];
    }
  }

  /** The piece after the last ", " of a text is what `split(", ")[-1]`
      returns, whatever comes before it. */
  lemma {:induction false} PyLastPieceAfterComma(x: string, y: string)
    requires forall j :: !OccursAt(y, ", ", j)
    ensures PyLastPiece(x + ", " + y, ", ") == y
    decreases |x|
  {
    var s := x + ", " + y;
    assert OccursAt(s, ", ", |x|);
    var i := IndexOf(s, ", ").value;
    assert i <= |x|;
    if i == |x| {
      assert s[i + 2..] == y;
      assert IndexOf(y, ", ").None?;
    } else {
      assert i != |x| - 1 by {
        assert s[|x|] == ',';
      }
      assert s[i + 2..] == x[i + 2..] + ", " + y;
      PyLastPieceAfterComma(x[i + 2..], y);
    }
  }

  /** Three-way lexicographic comparison by code point: negative, zero or
      positive as `a` sorts before, equal to or after `b`. */
  function Compare(a: string, b: string): (r: int)
    ensures -1 <= r <= 1
    ensures r == 0 <==> a == b
  {
    if a == [] then (if b == [] then 0 else -1)
    else if b == [] then 1
    else if a[0] < b[0] then -1
    else if a[0] > b[0] then 1
    else
      assert a == [a[0]] + a[1..] && b == [b[0]] + b[1..];
      Compare(a[1..], b[1..])
  }

  lemma {:induction false} CompareAntisymmetric(a: string, b: string)
    ensures Compare(a, b) == -Compare(b, a)
  {
    if a != [] && b != [] && a[0] == b[0] {
      CompareAntisymmetric(a[1..], b[1..]);
    }
  }
}
