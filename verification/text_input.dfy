/**
 * The two validators the Treequencer node menu applies to typed text: `isInteger` (node output)
 * and `isNumber` (node chance).
 *
 * Strings are `seq<char>`. The C++ code reads them through `c_str()` and `s[size()]`, which yield a
 * NUL character past the end; `CharAt` models that.
 */
module TextInput {
  import opened Decimal

  predicate IsSign(c: char) { c == '+' || c == '-' }

  /** The characters `isspace` accepts in the C locale. */
  predicate IsCSpace(c: char) { c == ' ' || c == '\t' || c == '\n' || c == '\U{B}' || c == '\U{C}' || c == '\r' }

  /** `s[i]` of a std::string, which is NUL at `i == size()`. */
  function CharAt(s: string, i: nat): char
  {
    if i < |s| then s[i] else '\0'
  }

  /** The string as C sees it through `c_str()`: everything before the first NUL. */
  function CStr(s: string): (t: string)
    ensures |t| <= |s| && t == s[..|t|]
    ensures forall i :: 0 <= i < |t| ==> t[i] != '\0'
    ensures |t| < |s| ==> s[|t|] == '\0'
  {
    if s == [] || s[0] == '\0' then [] else [s[0]] + CStr(s[1..])
  }

  // ---------------------------------------------------------------------------------------------
  // isInteger (treequencer.cpp:42-50): a first-character test followed by strtol's end pointer.

  /** First index at or after `i` that is not a digit. */
  function DigitRunEnd(s: string, i: nat): (j: nat)
    requires i <= |s|
    ensures i <= j <= |s|
    ensures forall k :: i <= k < j ==> IsDigit(s[k])
    ensures j == |s| || !IsDigit(s[j])
    decreases |s| - i
  {
    if i == |s| || !IsDigit(s[i]) then i else DigitRunEnd(s, i + 1)
  }

  /** First index at or after `i` that is not C white space. */
  function SpaceRunEnd(s: string, i: nat): (j: nat)
    requires i <= |s|
    ensures i <= j <= |s|
    ensures forall k :: i <= k < j ==> IsCSpace(s[k])
    ensures j == |s| || !IsCSpace(s[j])
    decreases |s| - i
  {
    if i == |s| || !IsCSpace(s[i]) then i else SpaceRunEnd(s, i + 1)
  }

  /**
   * The offset of strtol's end pointer for base 10: leading white space, an optional sign and a
   * run of digits; with no digit at all the end pointer is the start of the string.
   */
  function StrtolEnd(s: string): (e: nat)
    ensures e <= |s|
    ensures e > 0 ==> IsDigit(s[e - 1])
  {
    var a := SpaceRunEnd(s, 0);
    var b := if a < |s| && IsSign(s[a]) then a + 1 else a;
    var c := DigitRunEnd(s, b);
    if c == b then 0 else c
  }

  /** `isInteger` as written: the first character is a digit or a sign and strtol consumes everything up to the NUL. */
  function IsInteger(s: string): bool
  {
    s != [] && (IsDigit(s[0]) || IsSign(s[0])) && CharAt(s, StrtolEnd(s)) == '\0'
  }

  /** The intended grammar: an optional sign followed by one or more decimal digits. */
  predicate IntegerSyntax(t: string)
  {
    var k := if t != [] && IsSign(t[0]) then 1 else 0;
    |t| > k && forall i :: k <= i < |t| ==> IsDigit(t[i])
  }

  /** A digit run that starts at `i` and stops at `j` is the one `DigitRunEnd` finds. */
  lemma {:induction false} DigitRunEndIs(s: string, i: nat, j: nat)
    requires i <= j <= |s|
    requires forall k :: i <= k < j ==> IsDigit(s[k])
    requires j == |s| || !IsDigit(s[j])
    ensures DigitRunEnd(s, i) == j
    decreases j - i
  {
    if i < j {
      DigitRunEndIs(s, i + 1, j);
    }
  }

  /** A string whose C view is a signed run of digits passes `isInteger`. */
  lemma SyntaxIsInteger(s: string)
    requires IntegerSyntax(CStr(s))
    ensures IsInteger(s)
  {
    var t := CStr(s);
    assert s != [] && t[0] == s[0];
    var k := if IsSign(s[0]) then 1 else 0;
    assert SpaceRunEnd(s, 0) == 0;
    // The digits run over the whole C view and stop at its end, which is NUL or the end of s.
    assert forall i :: k <= i < |t| ==> IsDigit(s[i]);
    DigitRunEndIs(s, k, |t|);
  }

  /** A string `isInteger` accepts has a signed run of digits as its C view. */
  lemma IsIntegerSyntax(s: string)
    requires IsInteger(s)
    ensures IntegerSyntax(CStr(s))
  {
    var k := if IsSign(s[0]) then 1 else 0;
    assert SpaceRunEnd(s, 0) == 0;
    var c := DigitRunEnd(s, k);
    assert StrtolEnd(s) == c && c > k;
    // No NUL before c (a sign and digits), and c is NUL or the end: the C view is s[..c].
    assert forall i :: 0 <= i < c ==> s[i] != '\0';
    CStrLength(s, c);
  }

  /**
   * `isInteger` accepts exactly the strings whose C view (up to the first NUL) is an optional sign
   * followed by at least one digit.
   */
  lemma IsIntegerMeansSyntax(s: string)
    ensures IsInteger(s) <==> IntegerSyntax(CStr(s))
  {
    if IsInteger(s) {
      IsIntegerSyntax(s);
    }
    if IntegerSyntax(CStr(s)) {
      SyntaxIsInteger(s);
    }
  }

  /** `std::stoi` of a text `isInteger` accepted: its sign applied to the value of its digits. */
  function IntegerText(t: string): int
    requires IntegerSyntax(t)
  {
    if IsSign(t[0]) then
      assert AllDigits(t[1..]) by { assert forall i :: 0 <= i < |t| - 1 ==> t[1..][i] == t[i + 1]; }
      if t[0] == '-' then 0 - ParseDigits(t[1..]) else ParseDigits(t[1..])
    else ParseDigits(t)
  }

  /**
   * The text `std::to_string` prints for any integer passes `isInteger` and `std::stoi` reads it
   * back as that integer.
   */
  lemma IntegerTextOfIntToString(i: int)
    ensures IsInteger(IntToString(i)) && IntegerSyntax(CStr(IntToString(i)))
    ensures IntegerText(CStr(IntToString(i))) == i
  {
    var s := IntToString(i);
    ParseIntToString(i);
    if i < 0 {
      assert s[1..] == NatToString(-i);
    }
    assert forall k :: 0 <= k < |s| ==> s[k] != '\0' by {
      if i < 0 {
        assert forall k :: 1 <= k < |s| ==> s[k] == NatToString(-i)[k - 1];
      }
    }
    CStrOfNulFree(s);
    assert IntegerSyntax(s) by {
      if i < 0 {
        assert forall k :: 1 <= k < |s| ==> s[k] == NatToString(-i)[k - 1];
      }
    }
    IsIntegerMeansSyntax(s);
  }

  /** For a string without NUL characters, the C view is the string itself. */
  lemma CStrOfNulFree(s: string)
    requires forall i :: 0 <= i < |s| ==> s[i] != '\0'
    ensures CStr(s) == s
  {
    CStrLength(s, |s|);
  }

  /** The C view ends at `n` when no NUL precedes `n` and position `n` is NUL or the end. */
  lemma {:induction false} CStrLength(s: string, n: nat)
    requires n <= |s|
    requires forall i :: 0 <= i < n ==> s[i] != '\0'
    requires n == |s| || s[n] == '\0'
    ensures |CStr(s)| == n
    decreases n
  {
    if n > 0 {
      CStrLength(s[1..], n - 1);
    }
  }

  // ---------------------------------------------------------------------------------------------
  // isNumber (treequencer.cpp:52-74)

  /** The `std::string::npos` sentinel on a 64-bit platform; every std::string is shorter. */
  const NPOS: int := 0x1_0000_0000_0000_0000 - 1

  /** `s.find_first_not_of(' ')`: the first index that is not a blank, or npos when there is none. */
  function FindFirstNotSpace(s: string): (r: int)
    requires |s| < NPOS
    ensures r == NPOS || (0 <= r < |s| && s[r] != ' ' && AllBlanks(s[..r]))
    ensures r == NPOS <==> AllBlanks(s)
  {
    if s == [] then NPOS
    else if s[0] != ' ' then 0
    else
      var r := FindFirstNotSpace(s[1..]);
      assert r != NPOS ==> s[..r + 1] == [s[0]] + s[1..][..r];
      if r == NPOS then NPOS else r + 1
  }

  predicate AllBlanks(t: string) { forall i :: 0 <= i < |t| ==> t[i] == ' ' }

  predicate IsDigitOrPoint(c: char) { IsDigit(c) || c == '.' }

  function CountDigits(t: string): nat
  {
    if t == [] then 0 else CountDigits(t[..|t| - 1]) + (if IsDigit(t[|t| - 1]) then 1 else 0)
  }

  function CountPoints(t: string): nat
  {
    if t == [] then 0 else CountPoints(t[..|t| - 1]) + (if t[|t| - 1] == '.' then 1 else 0)
  }

  /**
   * `s` splits as blanks `s[..a]`, an optional sign `s[a..b]`, a significand `s[b..c]` of digits and
   * points with at least one digit and at most one point, and blanks `s[c..]`.
   */
  predicate NumberSplit(s: string, a: int, b: int, c: int)
    requires 0 <= a <= b <= c <= |s|
  {
    && AllBlanks(s[..a])
    && (b == a || (b == a + 1 && IsSign(s[a])))
    && (forall i :: b <= i < c ==> IsDigitOrPoint(s[i]))
    && CountDigits(s[b..c]) >= 1
    && CountPoints(s[b..c]) <= 1
    && AllBlanks(s[c..])
  }

  /** The number grammar `isNumber` is meant to accept. */
  ghost predicate NumberSyntax(s: string)
  {
    exists a, b, c :: 0 <= a <= b <= c <= |s| && NumberSplit(s, a, b, c)
  }

  /**
   * On an all-blank (or empty) string the library returns npos, so the guard at line 57, which
   * compares with `s.size()`, lets the scan go on and read `s[npos]`, past the end of the string.
   */
  lemma BlankStringPassesGuard(s: string)
    requires |s| < NPOS && AllBlanks(s)
    ensures FindFirstNotSpace(s) != |s| && FindFirstNotSpace(s) > |s|
  {
  }

  /** Any split of a string is the one the scan finds: `a` is the leading-blank count, `c` ends the significand run. */
  lemma SplitIsScan(s: string, a: int, b: int, c: int)
    requires |s| < NPOS
    requires 0 <= a <= b <= c <= |s| && NumberSplit(s, a, b, c)
    ensures a < |s| && FindFirstNotSpace(s) == a
    ensures b == (if IsSign(s[a]) then a + 1 else a)
    ensures c == |s| || !IsDigitOrPoint(s[c])
  {
    assert b < c;
    assert s[a] != ' ' by { if b == a { assert IsDigitOrPoint(s[b]); } }
    assert forall i :: 0 <= i < a ==> s[i] == s[..a][i];
    FirstNotSpaceIs(s, a);
    if c < |s| { assert s[c] == s[c..][0]; }
  }

  lemma FirstNotSpaceIs(s: string, a: nat)
    requires |s| < NPOS && a < |s| && s[a] != ' '
    requires forall i :: 0 <= i < a ==> s[i] == ' '
    ensures FindFirstNotSpace(s) == a
  {
    assert !AllBlanks(s);
  }

  lemma {:induction false} CountSnoc(t: string, x: char)
    ensures CountDigits(t + [x]) == CountDigits(t) + (if IsDigit(x) then 1 else 0)
    ensures CountPoints(t + [x]) == CountPoints(t) + (if x == '.' then 1 else 0)
  {
    assert (t + [x])[..|t + [x]| - 1] == t;
  }

  /** A blank or empty string has no split: every split needs a digit. */
  lemma BlankIsNotNumber(s: string)
    requires |s| < NPOS && AllBlanks(s)
    ensures !NumberSyntax(s)
  {
    if NumberSyntax(s) {
      var a, b, c :| 0 <= a <= b <= c <= |s| && NumberSplit(s, a, b, c);
      SplitIsScan(s, a, b, c);
    }
  }

  /**
   * Once the scan has found the first non-blank `first`, skipped a sign to `b` and run over digits
   * and points to `c`, the grammar holds exactly when the run has a digit and at most one point
   * and only blanks follow it.
   */
  lemma ScanDecides(s: string, first: nat, b: nat, c: nat)
    requires |s| < NPOS && first < |s| && FindFirstNotSpace(s) == first
    requires b == (if IsSign(s[first]) then first + 1 else first)
    requires b <= c <= |s|
    requires forall i :: b <= i < c ==> IsDigitOrPoint(s[i])
    requires c == |s| || !IsDigitOrPoint(s[c])
    ensures NumberSyntax(s) <==>
      CountDigits(s[b..c]) >= 1 && CountPoints(s[b..c]) <= 1 && AllBlanks(s[c..])
  {
    if CountDigits(s[b..c]) >= 1 && CountPoints(s[b..c]) <= 1 && AllBlanks(s[c..]) {
      assert AllBlanks(s[..first]) by {
        assert forall i :: 0 <= i < first ==> s[..first][i] == s[..FindFirstNotSpace(s)][i];
      }
      assert NumberSplit(s, first, b, c);
    }
    if NumberSyntax(s) {
      ScanFindsSplit(s, first, b, c);
    }
  }

  lemma ScanFindsSplit(s: string, first: nat, b: nat, c: nat)
    requires |s| < NPOS && first < |s| && FindFirstNotSpace(s) == first
    requires b == (if IsSign(s[first]) then first + 1 else first)
    requires b <= c <= |s|
    requires forall i :: b <= i < c ==> IsDigitOrPoint(s[i])
    requires c == |s| || !IsDigitOrPoint(s[c])
    requires NumberSyntax(s)
    ensures NumberSplit(s, first, b, c)
  {
    var a', b', c' :| 0 <= a' <= b' <= c' <= |s| && NumberSplit(s, a', b', c');
    SplitIsScan(s, a', b', c');
    assert a' == first && b' == b;
    SameRunEnd(s, b, c, c');
    assert c' == c;
  }

  /** Two maximal runs of digits and points from the same start end at the same place. */
  lemma SameRunEnd(s: string, b: nat, c: nat, c': nat)
    requires b <= c <= |s| && b <= c' <= |s|
    requires forall i :: b <= i < c ==> IsDigitOrPoint(s[i])
    requires forall i :: b <= i < c' ==> IsDigitOrPoint(s[i])
    requires c == |s| || !IsDigitOrPoint(s[c])
    requires c' == |s| || !IsDigitOrPoint(s[c'])
    ensures c == c'
  {
  }

  /** The significand loop of `isNumber`: runs over digits and points from `b`, counting each. */
  method ScanSignificand(s: string, b: nat) returns (pos: nat, digits: nat, points: nat)
    requires b <= |s|
    ensures b <= pos <= |s| && (pos == |s| || !IsDigitOrPoint(s[pos]))
    ensures forall i :: b <= i < pos ==> IsDigitOrPoint(s[i])
    ensures digits == CountDigits(s[b..pos]) && points == CountPoints(s[b..pos])
  {
    pos, digits, points := b, 0, 0;
    while IsDigitOrPoint(CharAt(s, pos))
      invariant b <= pos <= |s|
      invariant forall i :: b <= i < pos ==> IsDigitOrPoint(s[i])
      invariant digits == CountDigits(s[b..pos]) && points == CountPoints(s[b..pos])
      decreases |s| - pos
    {
      assert s[b..pos + 1] == s[b..pos] + [s[pos]];
      CountSnoc(s[b..pos], s[pos]);
      if s[pos] == '.' {
        points := points + 1;
      } else {
        digits := digits + 1;
      }
      pos := pos + 1;
    }
  }

  /** The trailing-blank loop of `isNumber`: it reaches the end exactly when only blanks follow `c`. */
  method SkipBlanks(s: string, c: nat) returns (pos: nat)
    requires c <= |s|
    ensures c <= pos <= |s|
    ensures pos == |s| <==> AllBlanks(s[c..])
  {
    pos := c;
    while CharAt(s, pos) == ' '
      invariant c <= pos <= |s|
      invariant forall i :: c <= i < pos ==> s[i] == ' '
      decreases |s| - pos
    {
      pos := pos + 1;
    }
    if pos < |s| {
      assert s[c..][pos - c] == s[pos];
    }
  }

  /**
   * `isNumber`, with the blank-string case closed: when `find_first_not_of` finds nothing the
   * string is rejected instead of being read at npos. The result is exactly the number grammar.
   */
  method IsNumber(s: string) returns (ok: bool)
    requires |s| < NPOS
    ensures ok == NumberSyntax(s)
  {
    var first := FindFirstNotSpace(s);
    if first == NPOS {
      BlankIsNotNumber(s);
      return false;
    }
    var b: nat := if IsSign(s[first]) then first + 1 else first;
    var c, digits, points := ScanSignificand(s, b);
    ScanDecides(s, first, b, c);
    if points > 1 || digits < 1 {
      return false;
    }
    var end := SkipBlanks(s, c);
    ok := end == |s|;
  }
}
