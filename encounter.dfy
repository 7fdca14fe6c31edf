/**
 * The encounter string parser of encounter.py: "2d4 goblins and orc" becomes one
 * (entity name, count) pair per " and "-separated group. The dice of the group with index `g`
 * are the stream `draws(g)`.
 */
module Encounter {
  import opened Wrappers
  import opened Strings
  import Roll

  /** Drop one trailing 's', the plural mark. */
  function Singular(name: string): (r: string)
    requires |name| > 0
  {
    if name[|name| - 1] == 's' then name[..|name| - 1] else name
  }

  /** The pair for one group: "npc_" plus its last word, and its first word rolled (1 for one word). */
  function Entry(group: string, draws: nat -> int): Result<(string, int)> {
    var parts := Split(group, " ");
    var name := Singular("npc_" + parts[|parts| - 1]);
    if |parts| > 1 then
      match Roll.Evaluate(parts[0], draws)
      case Err(e) => Err(e)
      case Ok(r) => Ok((name, r.result))
    else Ok((name, 1))
  }

  /** The values of a list of results, in order, or the first error among them. */
  function Gather<T>(rs: seq<Result<T>>): Result<seq<T>> {
    if rs == [] then Ok([])
    else
      match Gather(rs[..|rs| - 1])
      case Err(e) => Err(e)
      case Ok(init) =>
        match rs[|rs| - 1]
        case Err(e) => Err(e)
        case Ok(v) => Ok(init + [v])
  }

  /** `Gather` succeeds exactly when every result does, and then keeps each value in place. */
  lemma {:induction false} GatherInOrder<T>(rs: seq<Result<T>>)
    ensures Gather(rs).Ok? <==> forall k :: 0 <= k < |rs| ==> rs[k].Ok?
    ensures Gather(rs).Ok? ==>
              |Gather(rs).value| == |rs| && forall k :: 0 <= k < |rs| ==> Gather(rs).value[k] == rs[k].value
  {
    if rs != [] {
      var n := |rs| - 1;
      var init := rs[..n];
      GatherInOrder(init);
      assert forall k :: 0 <= k < n ==> init[k] == rs[k];
    }
  }

  /** Once a prefix of the results fails, every longer prefix fails the same way. */
  lemma {:induction false} GatherErrSticks<T>(rs: seq<Result<T>>, n: nat)
    requires n <= |rs| && Gather(rs[..n]).Err?
    ensures Gather(rs) == Gather(rs[..n])
    decreases |rs| - n
  {
    if n < |rs| {
      assert rs[..n + 1][..n] == rs[..n];
      GatherErrSticks(rs, n + 1);
    } else {
      assert rs[..n] == rs;
    }
  }

  /** Each group's own result; the group with index `g` rolls from the stream `draws(g)`. */
  function Results(groups: seq<string>, draws: nat -> nat -> int): (rs: seq<Result<(string, int)>>)
    ensures |rs| == |groups|
  {
    seq(|groups|, k requires 0 <= k < |groups| => Entry(groups[k], draws(k)))
  }

  /** The pairs of the groups in order; the first failing roll ends the parse. */
  function Entries(groups: seq<string>, draws: nat -> nat -> int): Result<seq<(string, int)>> {
    Gather(Results(groups, draws))
  }

  /** What `parse` returns for `s`. */
  function Encounter(s: string, draws: nat -> nat -> int): Result<seq<(string, int)>> {
    Entries(Split(s, " and "), draws)
  }

  /** `parse`: split into groups, then name and count each group in turn. */
  method Parse(s: string, draws: nat -> nat -> int) returns (r: Result<seq<(string, int)>>)
    ensures r == Encounter(s, draws)
  {
    var groups := Split(s, " and ");
    ghost var rs := Results(groups, draws);
    var npcs: seq<(string, int)> := [];
    for g := 0 to |groups|
      invariant Gather(rs[..g]) == Ok(npcs)
    {
      assert rs[..g + 1][..g] == rs[..g];
      var entry := ParseGroup(groups[g], draws(g));
      assert rs[g] == entry;
      if entry.Err? {
        assert Gather(rs[..g + 1]) == Err(entry.error);
        GatherErrSticks(rs, g + 1);
        return Err(entry.error);
      }
      npcs := npcs + [entry.value];
    }
    assert rs[..|groups|] == rs;
    r := Ok(npcs);
  }

  /** The loop body of `parse` for one group: its last word as the name, its first word rolled. */
  method ParseGroup(group: string, draws: nat -> int) returns (r: Result<(string, int)>)
    ensures r == Entry(group, draws)
  {
    var parts := Split(group, " ");
    var name := "npc_" + parts[|parts| - 1];
    var number := 1;
    if |parts| > 1 {
      var rolled := Roll.Parse(parts[0], draws);
      if rolled.Err? {
        return Err(rolled.error);
      }
      number := rolled.value.result;
    }
    ghost var full := name;
    if name[|name| - 1] == 's' {
      name := name[..|name| - 1];
    }
    assert name == Singular(full);
    r := Ok((name, number));
  }

  /** One pair per group, in input order, each the group's own entry; a failure is some group's failure. */
  lemma EntriesInOrder(groups: seq<string>, draws: nat -> nat -> int)
    ensures Entries(groups, draws).Ok? <==> forall k :: 0 <= k < |groups| ==> Entry(groups[k], draws(k)).Ok?
    ensures Entries(groups, draws).Ok? ==>
              var r := Entries(groups, draws).value;
              |r| == |groups| && forall k :: 0 <= k < |groups| ==> r[k] == Entry(groups[k], draws(k)).value
  {
    var rs := Results(groups, draws);
    GatherInOrder(rs);
    assert forall k :: 0 <= k < |groups| ==> rs[k] == Entry(groups[k], draws(k));
  }

  /**
   * Every name is "npc_" and the last word, with one trailing 's' dropped exactly when that
   * joined name ends in 's'.
   */
  lemma EntryName(group: string, draws: nat -> int)
    requires Entry(group, draws).Ok?
    ensures var parts := Split(group, " ");
            var full := "npc_" + parts[|parts| - 1];
            var name := Entry(group, draws).value.0;
            && StartsWith(name, "npc_")
            && name == (if full[|full| - 1] == 's' then full[..|full| - 1] else full)
            && (name == full || name + "s" == full)
  {
    var parts := Split(group, " ");
    var full := "npc_" + parts[|parts| - 1];
    if full[|full| - 1] == 's' {
      assert full[..|full| - 1] + "s" == full;
    }
  }

  /** A one-word group counts 1; otherwise the count is the first word rolled, and fails with it. */
  lemma EntryCount(group: string, draws: nat -> int)
    ensures var parts := Split(group, " ");
            && (|parts| == 1 ==> Entry(group, draws).Ok? && Entry(group, draws).value.1 == 1)
            && (|parts| > 1 ==>
                  (Entry(group, draws).Ok? <==> Roll.Evaluate(parts[0], draws).Ok?)
                  && (Entry(group, draws).Ok? ==> Entry(group, draws).value.1 == Roll.Evaluate(parts[0], draws).value.result))
  {
  }

  /** Words between the first and the last do not matter. */
  lemma MiddleWordsIgnored(a: string, m: string, b: string, draws: nat -> int)
    requires Lacks(a, ' ') && Lacks(m, ' ') && Lacks(b, ' ')
    ensures Entry(a + " " + m + " " + b, draws) == Entry(a + " " + b, draws)
  {
    SplitLacking(b, ' ');
    SplitAtChar(m, ' ', b);
    assert a + " " + m + " " + b == a + [' '] + (m + [' '] + b);
    SplitAtChar(a, ' ', m + " " + b);
    SplitAtChar(a, ' ', b);
  }

  /** A plural that itself ends in 's' loses just the one: "3 wolves" names "npc_wolve", 3 of them. */
  lemma WolvesExample(draws: nat -> int)
    ensures Entry("3 wolves", draws) == Ok(("npc_wolve", 3))
  {
    WolvesWords();
    ThreeRollsThree(draws);
    WolveName();
  }

  lemma WolveName()
    ensures Singular("npc_" + "wolves") == "npc_wolve"
  {
    var full := "npc_" + "wolves";
    assert full == "npc_wolves";
    assert full[|full| - 1] == 's';
    assert full[..|full| - 1] == "npc_wolve";
  }

  lemma WolvesWords()
    ensures Split("3 wolves", " ") == ["3", "wolves"]
  {
    assert "3 wolves" == "3" + [' '] + "wolves";
    assert Lacks("wolves", ' ');
    SplitLacking("wolves", ' ');
    SplitAtChar("3", ' ', "wolves");
  }

  lemma ThreeRollsThree(draws: nat -> int)
    ensures Roll.Evaluate("3", draws).Ok? && Roll.Evaluate("3", draws).value.result == 3
  {
    Roll.BareDigit("3", draws);
  }
}
