/**
 * Dice notation as `roll.parse` reads it: the prefix of the text matched by the pattern
 * `((\d+)?(d(\d+)))?(([+-])?(\d))?`, defaults for the missing parts, and the dice total.
 * The values `random.randint(1, sides)` returns are an input stream `draws`.
 */
module Roll {
  import opened Wrappers
  import opened Strings

  /** The captured groups: dice count, die type, sign and the single-digit modifier. */
  datatype Groups = Groups(count: Option<string>, sides: Option<string>, op: Option<char>, mod: Option<char>)

  /** The 5-tuple of the verbose form: total, operator, modifier, result, display text. */
  datatype Roll = Roll(total: int, op: Option<char>, mod: Option<int>, result: int, text: string)

  /** Length of the run of digits starting at `i` (what a greedy `\d+` can take there). */
  function DigitRun(s: string, i: nat): (n: nat)
    requires i <= |s|
    ensures i + n <= |s|
    decreases |s| - i
  {
    if i == |s| || !IsDigit(s[i]) then 0 else 1 + DigitRun(s, i + 1)
  }

  /** The run is all digits and is maximal. */
  lemma {:induction false} DigitRunShape(s: string, i: nat)
    requires i <= |s|
    ensures var n := DigitRun(s, i);
            && (forall p :: i <= p < i + n ==> IsDigit(s[p]))
            && (i + n < |s| ==> !IsDigit(s[i + n]))
    decreases |s| - i
  {
    if i < |s| && IsDigit(s[i]) {
      DigitRunShape(s, i + 1);
    }
  }

  /** A run of digits from `i` to `j` followed by a non-digit (or the end) is the run at `i`. */
  lemma {:induction false} DigitRunOf(s: string, i: nat, j: nat)
    requires i <= j <= |s|
    requires AllDigits(s[i..j])
    requires j == |s| || !IsDigit(s[j])
    ensures DigitRun(s, i) == j - i
    decreases j - i
  {
    if i < j {
      assert s[i..j][0] == s[i];
      assert s[i + 1..j] == s[i..j][1..];
      DigitRunOf(s, i + 1, j);
    }
  }

  /**
   * The dice group `(\d+)?(d(\d+))`: it matches exactly when the maximal digit run is followed
   * by 'd' and at least one digit; both digit runs are then maximal.
   * Returns the count, the sides and how many characters were consumed.
   */
  function MatchDice(s: string): (Option<string>, Option<string>, nat) {
    var k := DigitRun(s, 0);
    if k < |s| && s[k] == 'd' && DigitRun(s, k + 1) > 0 then DiceGroups(s, k, DigitRun(s, k + 1))
    else (None, None, 0)
  }

  /** The count (none when `k` is 0), the `m` sides after the 'd', and the length read. */
  function DiceGroups(s: string, k: nat, m: nat): (Option<string>, Option<string>, nat)
    requires k + 1 + m <= |s|
  {
    (if k == 0 then None else Some(s[..k]), Some(s[k + 1..k + 1 + m]), k + 1 + m)
  }

  /** The modifier group `([+-])?(\d)`: a sign and a digit, else a bare digit, else nothing. */
  function MatchModifier(s: string): (Option<char>, Option<char>, nat) {
    if |s| >= 2 && (s[0] == '+' || s[0] == '-') && IsDigit(s[1]) then (Some(s[0]), Some(s[1]), 2)
    else if |s| >= 1 && IsDigit(s[0]) then (None, Some(s[0]), 1)
    else (None, None, 0)
  }

  /** `re.match(pattern, s).groups()`: the match is anchored at the start and never fails. */
  function Match(s: string): Groups {
    var (count, sides, n) := MatchDice(s);
    var (op, mod, _) := MatchModifier(s[n..]);
    Groups(count, sides, op, mod)
  }

  /** Number of characters of `s` the pattern consumes. */
  function MatchLength(s: string): nat {
    var (_, _, n) := MatchDice(s);
    var (_, _, m) := MatchModifier(s[n..]);
    n + m
  }

  function OptText(o: Option<string>): string {
    if o.Some? then o.value else ""
  }

  function OptChar(o: Option<char>): string {
    if o.Some? then [o.value] else ""
  }

  /** The text a set of groups spells out. */
  function Text(g: Groups): string {
    OptText(g.count) + (if g.sides.Some? then "d" + g.sides.value else "") + OptChar(g.op) + OptChar(g.mod)
  }

  /** The groups the pattern can produce. */
  predicate WellFormed(g: Groups) {
    && (g.count.Some? ==> g.sides.Some? && |g.count.value| > 0 && AllDigits(g.count.value))
    && (g.sides.Some? ==> |g.sides.value| > 0 && AllDigits(g.sides.value))
    && (g.op.Some? ==> (g.op.value == '+' || g.op.value == '-') && g.mod.Some?)
    && (g.mod.Some? ==> IsDigit(g.mod.value))
    && (g.sides.Some? && g.mod.Some? ==> g.op.Some?)
  }

  /** What the dice group `r` read from `s` must satisfy: it spells out the prefix it consumed. */
  predicate DiceRead(s: string, r: (Option<string>, Option<string>, nat)) {
    var (count, sides, n) := r;
    && n <= |s|
    && OptText(count) + (if sides.Some? then "d" + sides.value else "") == s[..n]
    && (count.Some? ==> sides.Some? && |count.value| > 0 && AllDigits(count.value))
    && (sides.Some? ==> |sides.value| > 0 && AllDigits(sides.value) && (n < |s| ==> !IsDigit(s[n])))
    && (sides.None? ==> n == 0)
  }

  lemma DicePrefix(s: string)
    ensures DiceRead(s, MatchDice(s))
  {
    var k := DigitRun(s, 0);
    if k < |s| && s[k] == 'd' && DigitRun(s, k + 1) > 0 {
      var m := DigitRun(s, k + 1);
      MatchDiceAt(s, k, m);
      DiceFound(s, k, m);
    }
  }

  lemma DiceFound(s: string, k: nat, m: nat)
    requires k < |s| && DigitRun(s, 0) == k && s[k] == 'd'
    requires DigitRun(s, k + 1) == m > 0
    ensures DiceRead(s, DiceGroups(s, k, m))
  {
    DiceDigits(s, k, m);
    DiceSpells(s, k, k + 1 + m);
    var r := DiceGroups(s, k, m);
    assert r == (if k == 0 then None else Some(s[..k]), Some(s[k + 1..k + 1 + m]), k + 1 + m);
  }

  /** Both runs are digits, and the character after the second is not. */
  lemma DiceDigits(s: string, k: nat, m: nat)
    requires k < |s| && DigitRun(s, 0) == k
    requires DigitRun(s, k + 1) == m
    ensures AllDigits(s[..k]) && AllDigits(s[k + 1..k + 1 + m])
    ensures k + 1 + m < |s| ==> !IsDigit(s[k + 1 + m])
  {
    DigitRunShape(s, 0);
    DigitRunShape(s, k + 1);
  }

  /** The count, the 'd' and the sides spell out the prefix read. */
  lemma DiceSpells(s: string, k: nat, n: nat)
    requires k < n <= |s| && s[k] == 'd'
    ensures OptText(if k == 0 then None else Some(s[..k])) + ("d" + s[k + 1..n]) == s[..n]
  {
    SliceAround(s, k, n);
    assert OptText(if k == 0 then None else Some(s[..k])) == s[..k];
  }

  lemma ModifierPrefix(t: string)
    ensures var (op, mod, m) := MatchModifier(t);
            && m <= |t|
            && OptChar(op) + OptChar(mod) == t[..m]
            && (op.Some? ==> (op.value == '+' || op.value == '-') && mod.Some?)
            && (mod.Some? ==> IsDigit(mod.value))
            && (op.None? && mod.Some? ==> IsDigit(t[0]))
  {
  }

  /** Only a prefix is read: the groups spell out exactly the consumed prefix, and are well formed. */
  lemma MatchReadsPrefix(s: string)
    ensures MatchLength(s) <= |s|
    ensures Text(Match(s)) == s[..MatchLength(s)]
    ensures WellFormed(Match(s))
  {
    var (count, sides, n) := MatchDice(s);
    DicePrefix(s);
    var (op, mod, m) := MatchModifier(s[n..]);
    ModifierPrefix(s[n..]);
    var g := Groups(count, sides, op, mod);
    assert Match(s) == g;
    assert MatchLength(s) == n + m;
    var dice := OptText(count) + (if sides.Some? then "d" + sides.value else "");
    assert Text(g) == dice + (OptChar(op) + OptChar(mod));
    assert s[..n + m] == s[..n] + s[n..][..m];
    assert WellFormed(g);
  }

  lemma MatchWellFormed(s: string)
    ensures WellFormed(Match(s))
  {
    MatchReadsPrefix(s);
  }

  lemma ModifierText(g: Groups)
    requires WellFormed(g)
    requires g.op.Some? || g.mod.None? || g.sides.None?
    ensures MatchModifier(OptChar(g.op) + OptChar(g.mod)) == (g.op, g.mod, |OptChar(g.op) + OptChar(g.mod)|)
  {
  }

  lemma DiceRuns(c: string, sides: string, tail: string)
    requires AllDigits(c) && AllDigits(sides) && |sides| > 0
    requires tail == [] || tail[0] == '+' || tail[0] == '-'
    ensures var t := c + "d" + sides + tail;
            && DigitRun(t, 0) == |c| && t[|c|] == 'd' && DigitRun(t, |c| + 1) == |sides|
  {
    var t := c + "d" + sides + tail;
    var k, n := |c|, |c| + 1 + |sides|;
    DicePieces(c, sides, tail);
    assert t[0..k] == t[..k];
    DigitRunOf(t, 0, k);
    if n < |t| {
      assert t[n] == t[n..][0];
    }
    DigitRunOf(t, k + 1, n);
  }

  lemma DiceText(g: Groups, tail: string)
    requires WellFormed(g) && g.sides.Some?
    requires tail == [] || tail[0] == '+' || tail[0] == '-'
    ensures var t := OptText(g.count) + "d" + g.sides.value + tail;
            MatchDice(t) == (g.count, g.sides, |t| - |tail|) && t[|t| - |tail|..] == tail
  {
    var c := OptText(g.count);
    var sides := g.sides.value;
    var t := c + "d" + sides + tail;
    DiceRuns(c, sides, tail);
    var k := |c|;
    var m := |sides|;
    DicePieces(c, sides, tail);
    assert k == 0 <==> g.count.None?;
    MatchDiceAt(t, k, m);
  }

  lemma DicePieces(c: string, sides: string, tail: string)
    ensures var t := c + "d" + sides + tail;
            && t[..|c|] == c && t[|c| + 1..|c| + 1 + |sides|] == sides && t[|c| + 1 + |sides|..] == tail
  {
  }

  /** The dice group read where `k` leading digits are followed by 'd' and `m > 0` digits. */
  lemma MatchDiceAt(t: string, k: nat, m: nat)
    requires k < |t| && DigitRun(t, 0) == k && t[k] == 'd'
    requires DigitRun(t, k + 1) == m > 0
    ensures MatchDice(t) == DiceGroups(t, k, m)
  {
  }

  /** Every well-formed set of groups is what the pattern reads back from its own text. */
  lemma MatchText(g: Groups)
    requires WellFormed(g)
    ensures Match(Text(g)) == g && MatchLength(Text(g)) == |Text(g)|
  {
    var t := Text(g);
    var tail := OptChar(g.op) + OptChar(g.mod);
    if g.sides.Some? {
      assert t == OptText(g.count) + "d" + g.sides.value + tail;
      DiceText(g, tail);
      ModifierText(g);
    } else {
      assert t == tail;
      if g.mod.Some? && g.op.None? {
        assert DigitRun(t, 0) == 1;
      }
      assert MatchDice(t).2 == 0;
      assert t[0..] == t;
      ModifierText(g);
    }
  }

  /** A missing count means one die. */
  function DiceCount(g: Groups): nat
    requires WellFormed(g)
  {
    if g.count.Some? then DigitsValue(g.count.value) else 1
  }

  /** A missing die type means a d20. */
  function DiceSides(g: Groups): nat
    requires WellFormed(g)
  {
    if g.sides.Some? then DigitsValue(g.sides.value) else 20
  }

  /** The sum of the first `n` draws. */
  function Sum(draws: nat -> int, n: nat): int {
    if n == 0 then 0 else Sum(draws, n - 1) + draws(n - 1)
  }

  /** The verbose form once the dice are totalled: the result and its display text. */
  function Finish(total: int, op: char, mod: nat): (r: Roll) {
    var result := if op == '+' then total + mod else total - mod;
    var text := if mod == 0 then IntToString(result)
                else IntToString(total) + " " + [op] + " " + IntToString(mod) + " = " + IntToString(result);
    Roll(total, Some(op), Some(mod), result, text)
  }

  /** Sign and modifier after the defaults: '+' and 0 when missing. */
  function Sign(g: Groups): char { g.op.GetOr('+') }

  function Modifier(g: Groups): nat
    requires WellFormed(g)
  {
    if g.mod.Some? then DigitValue(g.mod.value) else 0
  }

  /** A digit with no sign before it is the whole answer. */
  predicate IsConstant(g: Groups) { g.mod.Some? && g.op.None? }

  /**
   * What `parse(s, value_only=False)` returns; `parse(s)` returns its `result`. Drawing from
   * `randint(1, 0)` raises ValueError.
   */
  function Evaluate(s: string, draws: nat -> int): Result<Roll> {
    MatchWellFormed(s);
    Rolled(Match(s), draws)
  }

  /** What the groups give once matched: the lone digit, or the defaults filled in and the dice totalled. */
  function Rolled(g: Groups, draws: nat -> int): Result<Roll>
    requires WellFormed(g)
  {
    if IsConstant(g) then
      var m := DigitValue(g.mod.value);
      Ok(Roll(m, None, None, m, [g.mod.value]))
    else if DiceCount(g) > 0 && DiceSides(g) == 0 then Err("ValueError")
    else Ok(Finish(Sum(draws, DiceCount(g)), Sign(g), Modifier(g)))
  }

  /** `roll.parse`: match, then roll what the groups say. */
  method Parse(s: string, draws: nat -> int) returns (r: Result<Roll>)
    ensures r == Evaluate(s, draws)
  {
    var g := Match(s);
    MatchWellFormed(s);
    r := RollGroups(g, draws);
  }

  /** The rest of `roll.parse`: fill in the defaults, then total the dice one draw at a time. */
  method RollGroups(g: Groups, draws: nat -> int) returns (r: Result<Roll>)
    requires WellFormed(g)
    ensures r == Rolled(g, draws)
  {
    if IsConstant(g) {
      var m := DigitValue(g.mod.value);
      return Ok(Roll(m, None, None, m, [g.mod.value]));
    }
    var n := DiceCount(g);
    var sides := DiceSides(g);
    var total := 0;
    var i := 0;
    while i < n
      invariant 0 <= i <= n
      invariant total == Sum(draws, i)
      invariant i > 0 ==> sides != 0
    {
      if sides == 0 {
        return Err("ValueError");
      }
      total := total + draws(i);
      i := i + 1;
    }
    r := Ok(Finish(total, Sign(g), Modifier(g)));
  }

  /** A lone digit, with no dice group and no sign, is returned as it is and nothing is rolled. */
  lemma BareDigit(s: string, draws: nat -> int)
    requires |s| > 0 && IsDigit(s[0])
    requires MatchDice(s).2 == 0
    ensures Evaluate(s, draws) == Ok(Roll(DigitValue(s[0]), None, None, DigitValue(s[0]), [s[0]]))
  {
  }

  /** "12" reads only its first digit: the result is 1. */
  lemma TwelveIsOne(draws: nat -> int)
    ensures Evaluate("12", draws).Ok? && Evaluate("12", draws).value.result == 1
  {
    assert DigitRun("12", 0) == 2;
    BareDigit("12", draws);
  }

  /** "2d6+10" takes the modifier's first digit only: two d6 plus 1. */
  lemma OnlyOneModifierDigit()
    ensures Match("2d6+10") == Groups(Some("2"), Some("6"), Some('+'), Some('1'))
  {
    var s := "2d6+10";
    assert DigitRun(s, 0) == 1;
    assert DigitRun(s, 2) == 1;
    assert s[..1] == "2" && s[2..3] == "6";
    assert MatchDice(s) == (Some("2"), Some("6"), 3);
    assert s[3..] == "+10";
  }

  /** With nothing matched, or only a signed modifier, one d20 is rolled. */
  lemma DefaultD20(s: string, draws: nat -> int)
    requires s == "" || (|s| >= 2 && (s[0] == '+' || s[0] == '-') && IsDigit(s[1]))
    ensures Match(s).count.None? && Match(s).sides.None?
    ensures DiceCount(Match(s)) == 1 && DiceSides(Match(s)) == 20
    ensures Evaluate(s, draws).Ok? && Evaluate(s, draws).value.total == draws(0)
  {
    MatchReadsPrefix(s);
  }

  lemma {:induction false} SumBounds(draws: nat -> int, n: nat, sides: nat)
    requires forall k :: 0 <= k < n ==> 1 <= draws(k) <= sides
    ensures n <= Sum(draws, n) <= n * sides
  {
    if n > 0 {
      SumBounds(draws, n - 1, sides);
      assert (n - 1) * sides + sides == n * sides;
    }
  }

  /**
   * When every die lands in [1, T], a rolled result is the total plus or minus the modifier,
   * and the total lies in [N, N*T].
   */
  lemma ResultRange(s: string, draws: nat -> int)
    requires Match(s).mod.None? || Match(s).op.Some?
    requires WellFormed(Match(s))
    requires forall k :: 0 <= k < DiceCount(Match(s)) ==> 1 <= draws(k) <= DiceSides(Match(s))
    ensures Evaluate(s, draws).Ok?
    ensures var r := Evaluate(s, draws).value;
            var n, t := DiceCount(Match(s)), DiceSides(Match(s));
            && r.op.Some? && r.mod.Some?
            && n <= r.total <= n * t
            && r.result == (if r.op.value == '+' then r.total + r.mod.value else r.total - r.mod.value)
  {
    var g := Match(s);
    SumBounds(draws, DiceCount(g), DiceSides(g));
  }

  /** The display text reads back to the result (no modifier), or splits into its five parts. */
  lemma TextReadsBack(s: string, draws: nat -> int)
    requires Evaluate(s, draws).Ok?
    ensures var r := Evaluate(s, draws).value;
            if r.mod == Some(0) || r.mod.None? then ParseInt(r.text) == Some(r.result)
            else Split(r.text, " ") == [IntToString(r.total), [r.op.value], IntToString(r.mod.value), "=", IntToString(r.result)]
  {
    var r := Evaluate(s, draws).value;
    if r.mod.None? {
      DigitReadsBack(r.text[0]);
    } else if r.mod == Some(0) {
      ParseIntOfIntToString(r.result);
    } else {
      FiveParts(IntToString(r.total), r.op.value, IntToString(r.mod.value), IntToString(r.result));
    }
  }

  lemma DigitReadsBack(c: char)
    requires IsDigit(c)
    ensures ParseInt([c]) == Some(DigitValue(c) as int)
  {
    StripUnpadded([c]);
    assert Strip([c]) == [c];
    assert [c][..0] == [];
    assert DigitsValue([c]) == DigitValue(c);
  }

  lemma FiveParts(a: string, op: char, c: string, d: string)
    requires Lacks(a, ' ') && Lacks(c, ' ') && Lacks(d, ' ') && op != ' '
    ensures Split(a + " " + [op] + " " + c + " = " + d, " ") == [a, [op], c, "=", d]
  {
    FiveWords(a, [op], c, d);
    FiveJoined(a, op, c, d);
  }

  /** The display text, regrouped as each word followed by a space and the rest. */
  lemma FiveJoined(a: string, op: char, c: string, d: string)
    ensures a + " " + [op] + " " + c + " = " + d == a + [' '] + ([op] + [' '] + (c + [' '] + ("=" + [' '] + d)))
  {
  }

  lemma FiveWords(a: string, b: string, c: string, d: string)
    requires Lacks(a, ' ') && Lacks(b, ' ') && Lacks(c, ' ') && Lacks(d, ' ')
    ensures Split(a + [' '] + (b + [' '] + (c + [' '] + ("=" + [' '] + d))), " ") == [a, b, c, "=", d]
  {
    var t4 := "=" + [' '] + d;
    var t3 := c + [' '] + t4;
    var t2 := b + [' '] + t3;
    SplitLacking(d, ' ');
    SplitAtChar("=", ' ', d);
    SplitAtChar(c, ' ', t4);
    SplitAtChar(b, ' ', t3);
    SplitAtChar(a, ' ', t2);
  }
}
