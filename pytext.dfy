/** The pieces of Python's string semantics that the script relies on:
    `str.split()` with no argument, `int()` applied to one token, decimal
    rendering of integers (used to state round trips), and the two slices
    `s[-4:]` and `s[:-4]`. */
module PyText {
  import opened Common

  /** `str.isspace()`: the characters that `str.split()` treats as separators. */
  predicate IsSpace(c: char) {
    var n := c as int;
    (0x09 <= n <= 0x0D) || (0x1C <= n <= 0x20) || n == 0x85 || n == 0xA0 || n == 0x1680 ||
    (0x2000 <= n <= 0x200A) || n == 0x2028 || n == 0x2029 || n == 0x202F || n == 0x205F || n == 0x3000
  }

  /** A token as `str.split()` produces it: non-empty and without whitespace. */
  predicate IsToken(t: string) {
    |t| > 0 && forall i :: 0 <= i < |t| ==> !IsSpace(t[i])
  }

  /** Length of the longest whitespace-free prefix of `s`. */
  function TokenEnd(s: string): (n: nat)
    ensures n <= |s|
    ensures forall i :: 0 <= i < n ==> !IsSpace(s[i])
    ensures n < |s| ==> IsSpace(s[n])
  {
    if s == [] || IsSpace(s[0]) then 0 else 1 + TokenEnd(s[1..])
  }

  /** `s.split()`: the maximal runs of non-whitespace characters, in order;
      leading, trailing and repeated whitespace produce no empty tokens. */
  function Split(s: string): (r: seq<string>)
    ensures forall i :: 0 <= i < |r| ==> IsToken(r[i])
    decreases |s|
  {
    if s == [] then []
    else if IsSpace(s[0]) then Split(s[1..])
    else
      var n := TokenEnd(s);
      [s[..n]] + Split(s[n..])
  }

  /** The tokens joined by single spaces, the shape of the page's texts ("1 h 20 min"). */
  function JoinSpaced(ts: seq<string>): string {
    if |ts| == 0 then []
    else if |ts| == 1 then ts[0]
    else ts[0] + " " + JoinSpaced(ts[1..])
  }

  lemma TokenEndOfToken(t: string, s: string)
    requires IsToken(t) && (s == [] || IsSpace(s[0]))
    ensures TokenEnd(t + s) == |t|
  {
    var ts := t + s;
    assert forall i :: 0 <= i < |t| ==> ts[i] == t[i];
    assert |t| < |ts| ==> ts[|t|] == s[0];
  }

  lemma SplitToken(t: string, s: string)
    requires IsToken(t) && (s == [] || IsSpace(s[0]))
    ensures Split(t + s) == [t] + Split(s)
  {
    TokenEndOfToken(t, s);
    var ts := t + s;
    assert ts[0] == t[0];
    assert ts[..|t|] == t;
    assert ts[|t|..] == s;
  }

  /** Splitting undoes joining with single spaces. */
  lemma {:induction false} SplitJoinSpaced(ts: seq<string>)
    requires forall i :: 0 <= i < |ts| ==> IsToken(ts[i])
    ensures Split(JoinSpaced(ts)) == ts
  {
    if |ts| == 1 {
      SplitToken(ts[0], []);
      assert ts[0] + [] == ts[0];
    } else if |ts| > 1 {
      var rest := JoinSpaced(ts[1..]);
      SplitJoinSpaced(ts[1..]);
      assert ts[0] + " " + rest == ts[0] + (" " + rest);
      SplitToken(ts[0], " " + rest);
      assert (" " + rest)[1..] == rest;
      assert ts == [ts[0]] + ts[1..];
    }
  }

  predicate IsDigit(c: char) { '0' <= c <= '9' }

  function Digit(d: nat): (c: char)
    requires d < 10
    ensures IsDigit(c) && c as int - '0' as int == d
  {
    ('0' as int + d) as char
  }

  /** The body of a decimal literal as `int()` accepts it: ASCII digits,
      optionally grouped by single underscores that stand between two digits. */
  predicate WellFormedDigits(d: string) {
    |d| > 0 && IsDigit(d[0]) && IsDigit(d[|d| - 1]) &&
    (forall i :: 0 <= i < |d| ==> IsDigit(d[i]) || d[i] == '_') &&
    (forall i :: 0 <= i < |d| - 1 && d[i] == '_' ==> d[i + 1] != '_')
  }

  /** The value of a digit string read left to right; underscores carry no value. */
  function DigitsValue(d: string): nat {
    if d == [] then 0
    else if IsDigit(d[|d| - 1]) then 10 * DigitsValue(d[..|d| - 1]) + (d[|d| - 1] as int - '0' as int)
    else DigitsValue(d[..|d| - 1])
  }

  /** `int(t)` for a whitespace-free `t`: an optional sign followed by a
      well-formed digit string; anything else raises ValueError (`None` here). */
  function ParseInt(t: string): (r: Option<int>)
    ensures r.Some? ==> |t| > 0 && (IsDigit(t[0]) || t[0] == '-' || t[0] == '+')
    ensures r.Some? && r.value < 0 ==> t[0] == '-'
  {
    if |t| > 0 && (t[0] == '-' || t[0] == '+') then
      if WellFormedDigits(t[1..]) then
        var v: int := DigitsValue(t[1..]);
        Some(if t[0] == '-' then -v else v)
      else None
    else if WellFormedDigits(t) then Some(DigitsValue(t))
    else None
  }

  /** Decimal rendering of a natural number, without leading zeros. */
  function NatText(n: nat): (s: string)
    ensures |s| > 0 && forall i :: 0 <= i < |s| ==> IsDigit(s[i])
  {
    if n < 10 then [Digit(n)] else NatText(n / 10) + [Digit(n % 10)]
  }

  /** Decimal rendering of an integer, as `str(i)` gives it. */
  function IntText(i: int): string {
    if i < 0 then "-" + NatText(-i) else NatText(i)
  }

  lemma {:induction false} NatTextValue(n: nat)
    ensures DigitsValue(NatText(n)) == n
  {
    if n >= 10 {
      var s := NatText(n);
      assert s[..|s| - 1] == NatText(n / 10);
      NatTextValue(n / 10);
    }
  }

  /** The rendering of a natural number is a well-formed digit string and a single token. */
  lemma NatTextWellFormed(n: nat)
    ensures WellFormedDigits(NatText(n)) && IsToken(NatText(n))
    ensures ParseInt(NatText(n)) == Some(n)
  {
    var s := NatText(n);
    assert forall i :: 0 <= i < |s| ==> !IsSpace(s[i]) && s[i] != '_';
    NatTextValue(n);
  }

  /** A minus sign before a well-formed digit string reads as the negated value. */
  lemma ParseNegated(s: string)
    requires WellFormedDigits(s) && IsToken(s)
    ensures IsToken("-" + s)
    ensures ParseInt("-" + s) == Some(-(DigitsValue(s) as int))
  {
    var t := "-" + s;
    assert t[1..] == s;
    assert forall k :: 1 <= k < |t| ==> t[k] == s[k - 1];
  }

  /** `int(str(i)) == i`, and `str(i)` is a single token. */
  lemma ParseIntText(i: int)
    ensures IsToken(IntText(i))
    ensures ParseInt(IntText(i)) == Some(i)
  {
    if i < 0 {
      var n: nat := -i;
      NatTextWellFormed(n);
      NatTextValue(n);
      ParseNegated(NatText(n));
      assert IntText(i) == "-" + NatText(n);
    } else {
      NatTextWellFormed(i);
    }
  }

  /** `s[-4:]`: the suffix of `s` of length four, or all of a shorter `s`. */
  function Last4(s: string): (r: string)
    ensures |r| == if |s| >= 4 then 4 else |s|
    ensures r == s[|s| - |r|..]
  {
    if |s| >= 4 then s[|s| - 4..] else s
  }

  /** `s[:-4]`: the prefix of `s` without its last four characters, empty for a shorter `s`. */
  function DropLast4(s: string): (r: string)
    ensures |r| == if |s| >= 4 then |s| - 4 else 0
    ensures r == s[..|r|]
  {
    if |s| >= 4 then s[..|s| - 4] else []
  }

  /** For a text of four or more characters the two slices split it in two. */
  lemma SlicesSplitText(s: string)
    requires |s| >= 4
    ensures DropLast4(s) + Last4(s) == s
  {
    assert s[..|s| - 4] + s[|s| - 4..] == s;
  }
}
