/**
 * The Python 2 string built-ins the scripts rely on: `int()`, `str()` and `%i` of integers,
 * `split`, `startswith`, `in` on strings, `lower`, `title`, `ljust` and repetition `c * n`,
 * on ASCII text.
 */
module Strings {
  import opened Wrappers

  /** Sequence concatenation regroups freely. */
  lemma ConcatAssociative<T>(a: seq<T>, b: seq<T>, c: seq<T>)
    ensures (a + b) + c == a + (b + c)
  {
  }

  /** A non-empty right operand splits into its front and its last element. */
  lemma SliceAround<T>(s: seq<T>, k: nat, n: nat)
    requires k < n <= |s|
    ensures s[..n] == s[..k] + ([s[k]] + s[k + 1..n])
  {
  }

  lemma SplitLast<T>(a: seq<T>, b: seq<T>)
    requires b != []
    ensures a + b == (a + b[..|b| - 1]) + [b[|b| - 1]]
  {
  }

  predicate IsDigit(c: char) { '0' <= c <= '9' }

  predicate AllDigits(s: string) { forall k :: 0 <= k < |s| ==> IsDigit(s[k]) }

  /** The characters `str.split()` and `str.strip()` treat as whitespace. */
  predicate IsSpace(c: char) {
    c == ' ' || c == '\t' || c == '\n' || c == '\r' || c == '\U{0b}' || c == '\U{0c}'
  }

  function DigitValue(c: char): (d: nat)
    requires IsDigit(c)
    ensures d < 10
  {
    (c as int) - ('0' as int)
  }

  function DigitChar(d: nat): (c: char)
    requires d < 10
    ensures IsDigit(c) && DigitValue(c) == d
  {
    (d + '0' as int) as char
  }

  /** The value of a run of decimal digits, as `int()` reads it (leading zeros allowed). */
  function DigitsValue(s: string): nat
    requires AllDigits(s)
  {
    if s == [] then 0 else 10 * DigitsValue(s[..|s| - 1]) + DigitValue(s[|s| - 1])
  }

  /** `str(n)` for a non-negative integer. */
  function NatToString(n: nat): (s: string)
    ensures |s| > 0 && AllDigits(s)
  {
    if n < 10 then [DigitChar(n)] else NatToString(n / 10) + [DigitChar(n % 10)]
  }

  /** `str(i)` and `"%i" % i`: an optional minus sign, then the decimal digits. */
  function IntToString(i: int): (s: string)
    ensures |s| > 0 && IsDigit(s[|s| - 1])
    ensures i >= 0 ==> AllDigits(s)
    ensures i < 0 ==> s[0] == '-' && AllDigits(s[1..])
  {
    if i < 0 then "-" + NatToString(-i) else NatToString(i)
  }

  lemma {:induction false} DigitsOfNat(n: nat)
    ensures DigitsValue(NatToString(n)) == n
  {
    if n >= 10 {
      var s := NatToString(n);
      assert s[..|s| - 1] == NatToString(n / 10);
      DigitsOfNat(n / 10);
    }
  }

  function StripLeft(s: string): (t: string)
  {
    if |s| > 0 && IsSpace(s[0]) then StripLeft(s[1..]) else s
  }

  function StripRight(s: string): (t: string)
  {
    if |s| > 0 && IsSpace(s[|s| - 1]) then StripRight(s[..|s| - 1]) else s
  }

  /** Stripping on the left keeps a suffix that does not start with whitespace. */
  lemma {:induction false} StripLeftShape(s: string)
    ensures var t := StripLeft(s); |t| <= |s| && t == s[|s| - |t|..] && (t == [] || !IsSpace(t[0]))
    decreases |s|
  {
    if |s| > 0 && IsSpace(s[0]) {
      StripLeftShape(s[1..]);
    }
  }

  /** Stripping on the right keeps a prefix that does not end with whitespace. */
  lemma {:induction false} StripRightShape(s: string)
    ensures var t := StripRight(s); |t| <= |s| && t == s[..|t|] && (t == [] || !IsSpace(t[|t| - 1]))
    decreases |s|
  {
    if |s| > 0 && IsSpace(s[|s| - 1]) {
      StripRightShape(s[..|s| - 1]);
    }
  }

  /** `str.strip()`: removes leading and trailing whitespace. */
  function Strip(s: string): string {
    StripRight(StripLeft(s))
  }

  /** The stripped string is a piece of the original that neither starts nor ends with whitespace. */
  lemma StripTrims(s: string)
    ensures var t := Strip(s); |t| <= |s| && (t == [] || (!IsSpace(t[0]) && !IsSpace(t[|t| - 1])))
  {
    var u := StripLeft(s);
    StripLeftShape(s);
    StripRightShape(u);
    var t := StripRight(u);
    if t != [] {
      assert t[0] == u[0];
    }
  }

  /**
   * `int(s)` on a string: surrounding whitespace, an optional sign, more whitespace after the
   * sign (Python 2 skips it again before the digits), then at least one digit; anything else
   * raises ValueError, modelled as None.
   */
  function ParseInt(s: string): Option<int> {
    var t := Strip(s);
    var negative := |t| > 0 && t[0] == '-';
    var body := if |t| > 0 && (t[0] == '-' || t[0] == '+') then StripLeft(t[1..]) else t;
    if |body| > 0 && AllDigits(body) then
      var magnitude: int := DigitsValue(body);
      Some(if negative then -magnitude else magnitude)
    else None
  }

  lemma StripUnpadded(s: string)
    requires |s| > 0 && !IsSpace(s[0]) && !IsSpace(s[|s| - 1])
    ensures Strip(s) == s
  {
    assert StripLeft(s) == s;
  }

  /** `int(str(i)) == i`: the decimal text of every integer reads back to it. */
  lemma {:induction false} ParseIntOfIntToString(i: int)
    ensures ParseInt(IntToString(i)) == Some(i)
  {
    var t := IntToString(i);
    StripUnpadded(t);
    if i < 0 {
      var digits := NatToString(-i);
      assert t[1..] == digits;
      assert StripLeft(digits) == digits;
      DigitsOfNat(-i);
    } else {
      assert !(t[0] == '-' || t[0] == '+');
      DigitsOfNat(i);
    }
  }

  /** Whitespace in front of a string that starts with a non-space is exactly what the left strip drops. */
  lemma {:induction false} StripLeftSpaces(w: string, d: string)
    requires forall k :: 0 <= k < |w| ==> IsSpace(w[k])
    requires |d| > 0 && !IsSpace(d[0])
    ensures StripLeft(w + d) == d
    decreases |w|
  {
    if |w| > 0 {
      assert (w + d)[1..] == w[1..] + d;
      StripLeftSpaces(w[1..], d);
    }
  }

  /** A sign, any whitespace, then the text of a natural reads as that natural with the sign. */
  lemma SignThenSpaces(sign: char, w: string, n: nat)
    requires sign == '-' || sign == '+'
    requires forall k :: 0 <= k < |w| ==> IsSpace(w[k])
    ensures ParseInt([sign] + w + NatToString(n)) == Some(if sign == '-' then -(n as int) else n as int)
  {
    var digits := NatToString(n);
    var s := [sign] + w + digits;
    assert StripLeft(s) == s;
    assert s[|s| - 1] == digits[|digits| - 1];
    assert Strip(s) == s;
    assert s[1..] == w + digits;
    StripLeftSpaces(w, digits);
    DigitsOfNat(n);
  }

  predicate StartsWith(s: string, prefix: string) {
    |prefix| <= |s| && s[..|prefix|] == prefix
  }

  /** `sub in s` for strings: `sub` occurs somewhere in `s`. */
  predicate Contains(s: string, sub: string)
    decreases |s|
  {
    StartsWith(s, sub) || (|s| > 0 && Contains(s[1..], sub))
  }

  /** `s.split(sep)` for a non-empty separator: cut at every occurrence, scanning left to right. */
  function Split(s: string, sep: string): (parts: seq<string>)
    requires |sep| > 0
    ensures |parts| >= 1
    decreases |s|
  {
    if |s| < |sep| then [s]
    else if s[..|sep|] == sep then [""] + Split(s[|sep|..], sep)
    else
      var rest := Split(s[1..], sep);
      [[s[0]] + rest[0]] + rest[1..]
  }

  /** `sep.join(parts)`. */
  function Join(parts: seq<string>, sep: string): string
    requires |parts| >= 1
  {
    if |parts| == 1 then parts[0] else parts[0] + sep + Join(parts[1..], sep)
  }

  /** Gluing a character onto the first part glues it onto the joined string. */
  lemma JoinCons(c: char, rest: seq<string>, sep: string)
    requires |rest| >= 1
    ensures Join([[c] + rest[0]] + rest[1..], sep) == [c] + Join(rest, sep)
  {
    var parts := [[c] + rest[0]] + rest[1..];
    if |rest| > 1 {
      assert parts[1..] == rest[1..];
    }
  }

  /** Splitting and joining again with the same separator gives back the string. */
  lemma {:induction false} JoinSplit(s: string, sep: string)
    requires |sep| > 0
    ensures Join(Split(s, sep), sep) == s
    decreases |s|
  {
    if |s| < |sep| {
    } else if s[..|sep|] == sep {
      var rest := Split(s[|sep|..], sep);
      JoinSplit(s[|sep|..], sep);
      var parts := [""] + rest;
      assert Split(s, sep) == parts;
      assert parts[1..] == rest;
      assert Join(parts, sep) == "" + sep + Join(rest, sep);
      assert s == sep + s[|sep|..];
    } else {
      var rest := Split(s[1..], sep);
      JoinSplit(s[1..], sep);
      JoinCons(s[0], rest, sep);
      assert s == [s[0]] + s[1..];
    }
  }

  /** `c not in s`. */
  predicate Lacks(s: string, c: char) { forall k :: 0 <= k < |s| ==> s[k] != c }

  /** A string that lacks the first character of `sub` does not contain `sub`. */
  lemma {:induction false} LacksHead(s: string, sub: string)
    requires |sub| > 0 && Lacks(s, sub[0])
    ensures !Contains(s, sub)
    decreases |s|
  {
    if |s| > 0 {
      LacksHead(s[1..], sub);
      if |sub| <= |s| {
        assert s[..|sub|][0] != sub[0];
      }
    }
  }

  /** A string without the separator character splits into itself alone. */
  lemma {:induction false} SplitLacking(a: string, c: char)
    requires Lacks(a, c)
    ensures Split(a, [c]) == [a]
    decreases |a|
  {
    if |a| >= 1 {
      SplitLacking(a[1..], c);
      assert [a[0]] + a[1..] == a;
    }
  }

  /** Splitting at the first separator character: the part before it comes first. */
  lemma {:induction false} SplitAtChar(a: string, c: char, b: string)
    requires Lacks(a, c)
    ensures Split(a + [c] + b, [c]) == [a] + Split(b, [c])
    decreases |a|
  {
    var s := a + [c] + b;
    if a == [] {
      assert s[..1] == [c] && s[1..] == b;
    } else {
      assert s[0] == a[0] && s[..1] == [s[0]];
      assert s[1..] == a[1..] + [c] + b;
      SplitAtChar(a[1..], c, b);
      assert [a[0]] + a[1..] == a;
    }
  }

  /** `s.split(sep, maxsplit)`: as Split, but at most `maxsplit` cuts, the rest stays in the last part. */
  function SplitMax(s: string, sep: string, maxsplit: nat): (parts: seq<string>)
    requires |sep| > 0
    ensures 1 <= |parts| <= maxsplit + 1
    decreases |s|
  {
    if |s| < |sep| || maxsplit == 0 then [s]
    else if s[..|sep|] == sep then [""] + SplitMax(s[|sep|..], sep, maxsplit - 1)
    else
      var rest := SplitMax(s[1..], sep, maxsplit);
      [[s[0]] + rest[0]] + rest[1..]
  }

  /** Length of the leading run of non-whitespace characters. */
  function WordLength(s: string): (n: nat)
    ensures n <= |s|
    ensures forall k :: 0 <= k < n ==> !IsSpace(s[k])
    ensures n < |s| ==> IsSpace(s[n])
  {
    if s == [] || IsSpace(s[0]) then 0 else 1 + WordLength(s[1..])
  }

  /** `s.split()`: the maximal runs of non-whitespace characters, in order. */
  function Words(s: string): (words: seq<string>)
    ensures forall w :: w in words ==> |w| > 0 && forall k :: 0 <= k < |w| ==> !IsSpace(w[k])
    decreases |s|
  {
    if s == [] then []
    else if IsSpace(s[0]) then Words(s[1..])
    else
      var n := WordLength(s);
      [s[..n]] + Words(s[n..])
  }

  function LowerChar(c: char): char {
    if 'A' <= c <= 'Z' then (c as int + 32) as char else c
  }

  function UpperChar(c: char): char {
    if 'a' <= c <= 'z' then (c as int - 32) as char else c
  }

  predicate IsLetter(c: char) { 'a' <= c <= 'z' || 'A' <= c <= 'Z' }

  /** `s.lower()`. */
  function Lower(s: string): (t: string)
    ensures |t| == |s|
    ensures forall k :: 0 <= k < |s| ==> t[k] == LowerChar(s[k])
  {
    if s == [] then [] else [LowerChar(s[0])] + Lower(s[1..])
  }

  /** How `title` cases one character, given whether a letter comes just before it. */
  function TitleChar(afterLetter: bool, c: char): char {
    if !IsLetter(c) then c else if afterLetter then LowerChar(c) else UpperChar(c)
  }

  /** `title` of `s` when `afterLetter` says whether a letter precedes it. */
  function TitleFrom(s: string, afterLetter: bool): (t: string)
    ensures |t| == |s|
    ensures forall k :: 0 <= k < |s| ==> t[k] == TitleChar(if k == 0 then afterLetter else IsLetter(s[k - 1]), s[k])
  {
    if s == [] then []
    else [TitleChar(afterLetter, s[0])] + TitleFrom(s[1..], IsLetter(s[0]))
  }

  /**
   * `s.title()`: a letter is upper-cased when the character before it is not a letter, and
   * lower-cased otherwise; other characters are unchanged.
   */
  function Title(s: string): (t: string)
    ensures |t| == |s|
    ensures forall k :: 0 <= k < |s| ==> t[k] == TitleChar(k > 0 && IsLetter(s[k - 1]), s[k])
  {
    TitleFrom(s, false)
  }

  /** `title` changes only the case of letters. */
  lemma TitleOnlyRecases(s: string)
    ensures Lower(Title(s)) == Lower(s)
  {
    forall k | 0 <= k < |s|
      ensures Lower(Title(s))[k] == Lower(s)[k]
    {
      TitleCharRecases(k > 0 && IsLetter(s[k - 1]), s[k]);
    }
  }

  lemma TitleCharRecases(afterLetter: bool, c: char)
    ensures LowerChar(TitleChar(afterLetter, c)) == LowerChar(c)
  {
  }

  /** `c * n`: `n` copies of `c`, and the empty string when `n <= 0`. */
  function Repeat(c: char, n: int): (s: string)
    ensures |s| == if n <= 0 then 0 else n
    ensures forall k :: 0 <= k < |s| ==> s[k] == c
  {
    if n <= 0 then [] else [c] + Repeat(c, n - 1)
  }

  /** `s.ljust(w)`: `s` padded with spaces on the right to at least `w` characters. */
  function LJust(s: string, w: int): (t: string)
    ensures |t| == if |s| >= w then |s| else w
    ensures t[..|s|] == s
    ensures forall k :: |s| <= k < |t| ==> t[k] == ' '
  {
    if |s| >= w then s else s + Repeat(' ', w - |s|)
  }
}
