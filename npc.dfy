/**
 * Non-player characters of npc.py: alignment codes and their names, the NPC record and its
 * text forms, and the tables that turn die rolls into alignment, race and name shape.
 * Die results are inputs; so are the names the name generator returns and the notes.
 */
module Npc {
  import opened Wrappers
  import opened Strings
  import Printing

  const UNALIGNED: int := 0
  const CHAOTIC: int := 1
  const EVIL: int := 2
  const GOOD: int := 3
  const LAWFUL: int := 4
  const NEUTRAL: int := 5

  const FEMALE: int := 1
  const MALE: int := 2

  /** `alignment_to_string`: None where the dictionary raises KeyError. */
  function AlignmentName(code: int): Option<string> {
    if code == UNALIGNED then Some("")
    else if code == EVIL then Some("evil")
    else if code == NEUTRAL then Some("neutral")
    else if code == GOOD then Some("good")
    else if code == CHAOTIC then Some("chaotic")
    else if code == LAWFUL then Some("lawful")
    else None
  }

  /** `alignment()` for the two codes. */
  function AlignmentText(law: int, moral: int): Result<string> {
    if moral == UNALIGNED && law == UNALIGNED then Ok("unaligned")
    else if AlignmentName(law).None? || AlignmentName(moral).None? then Err("KeyError")
    else Ok(AlignmentName(law).value + " " + AlignmentName(moral).value)
  }

  /** Each known code has its own name: the table is one-to-one on the six codes. */
  lemma AlignmentNamesDistinct(a: int, b: int)
    requires AlignmentName(a).Some? && AlignmentName(b).Some?
    ensures AlignmentName(a) == AlignmentName(b) <==> a == b
    ensures AlignmentName(a).Some? <==> 0 <= a <= 5
  {
  }

  lemma AlignmentNameOneWord(code: int)
    requires AlignmentName(code).Some?
    ensures Lacks(AlignmentName(code).value, ' ')
  {
  }

  /**
   * "unaligned" exactly when both codes are UNALIGNED; otherwise, for known codes, the law
   * name, a space and the moral name, which reads back as those two names.
   */
  lemma AlignmentReadsBack(law: int, moral: int)
    requires AlignmentName(law).Some? && AlignmentName(moral).Some?
    ensures AlignmentText(law, moral) == Ok("unaligned") <==> law == UNALIGNED && moral == UNALIGNED
    ensures !(law == UNALIGNED && moral == UNALIGNED) ==>
              Split(AlignmentText(law, moral).value, " ") == [AlignmentName(law).value, AlignmentName(moral).value]
  {
    var l, m := AlignmentName(law).value, AlignmentName(moral).value;
    AlignmentNameOneWord(law);
    AlignmentNameOneWord(moral);
    SplitLacking(m, ' ');
    SplitAtChar(l, ' ', m);
    assert l + " " + m != "unaligned" by {
      assert |l + " " + m| == 9 ==> (l + " " + m)[|l|] == ' ';
    }
  }

  /** `sex_str`. */
  function SexText(sex: int): string {
    if sex == 1 then "female" else if sex == 2 then "male" else ""
  }

  /** Only codes 1 and 2 have a name, and different codes have different names. */
  lemma SexTextDistinct(a: int, b: int)
    ensures SexText(a) == "" <==> a != FEMALE && a != MALE
    ensures SexText(a) != "" && SexText(a) == SexText(b) ==> a == b
  {
  }

  /** `notes_str`: " - " + note + "\n" for each note in order. */
  function NotesText(notes: seq<string>): string {
    if notes == [] then "" else NotesText(notes[..|notes| - 1]) + " - " + notes[|notes| - 1] + "\n"
  }

  /** The notes text is the notes as bulleted lines. */
  lemma {:induction false} NotesAsLines(notes: seq<string>)
    ensures NotesText(notes) == Printing.JoinLines(seq(|notes|, k requires 0 <= k < |notes| => " - " + notes[k]))
  {
    if notes != [] {
      var init := notes[..|notes| - 1];
      NotesAsLines(init);
      var bullets := seq(|notes|, k requires 0 <= k < |notes| => " - " + notes[k]);
      assert bullets == seq(|init|, k requires 0 <= k < |init| => " - " + init[k]) + [" - " + notes[|notes| - 1]];
      Printing.JoinLinesSnoc(seq(|init|, k requires 0 <= k < |init| => " - " + init[k]), " - " + notes[|notes| - 1]);
    }
  }

  /** The text of more notes continues the text of the earlier ones. */
  lemma {:induction false} NotesTextAppend(a: seq<string>, b: seq<string>)
    ensures NotesText(a + b) == NotesText(a) + NotesText(b)
    decreases |b|
  {
    if b == [] {
      assert a + b == a;
    } else {
      var init := b[..|b| - 1];
      assert (a + b)[..|a + b| - 1] == a + init;
      NotesTextAppend(a, init);
    }
  }

  /** The class attributes of `NPC`, set field by field by `generate_npc`. */
  class Character {
    var moralAlignment: int
    var lawAlignment: int
    var name: string
    var race: string
    var notes: seq<string>
    var sex: int
    var trade: string

    /** A fresh NPC carries the class defaults. */
    constructor()
      ensures moralAlignment == UNALIGNED && lawAlignment == UNALIGNED
      ensures name == "Unnamed" && race == "unknown" && notes == [] && sex == 0 && trade == ""
    {
      moralAlignment := 0;
      lawAlignment := 0;
      name := "Unnamed";
      race := "unknown";
      notes := [];
      sex := 0;
      trade := "";
    }

    function Alignment(): Result<string>
      reads this
    {
      AlignmentText(lawAlignment, moralAlignment)
    }

    function SexStr(): string
      reads this
    {
      SexText(sex)
    }

    /** `notes_str`: accumulate one bullet line per note. */
    method NotesStr() returns (s: string)
      ensures s == NotesText(notes)
    {
      s := "";
      for i := 0 to |notes|
        invariant s == NotesText(notes[..i])
      {
        assert notes[..i + 1][..i] == notes[..i];
        s := s + " - " + notes[i] + "\n";
      }
      assert notes[..|notes|] == notes;
    }
  }

  /** The law code from a d3 roll. */
  function LawFromRoll(roll: int): int {
    if roll == 1 then LAWFUL else if roll == 2 then CHAOTIC else NEUTRAL
  }

  /** The moral code from a d3 roll. */
  function MoralFromRoll(roll: int): int {
    if roll == 1 then GOOD else if roll == 2 then EVIL else NEUTRAL
  }

  /** Whatever the rolls, a generated NPC has a two-word alignment, never "unaligned". */
  lemma GeneratedAlignment(lawRoll: int, moralRoll: int)
    ensures LawFromRoll(lawRoll) in {LAWFUL, CHAOTIC, NEUTRAL}
    ensures MoralFromRoll(moralRoll) in {GOOD, EVIL, NEUTRAL}
    ensures AlignmentText(LawFromRoll(lawRoll), MoralFromRoll(moralRoll)).Ok?
    ensures AlignmentText(LawFromRoll(lawRoll), MoralFromRoll(moralRoll)) != Ok("unaligned")
  {
    AlignmentReadsBack(LawFromRoll(lawRoll), MoralFromRoll(moralRoll));
  }

  /** The race from a d20 and, on a 20, a d10. */
  function RaceFromRolls(d20: int, d10: int): string {
    if d20 < 15 then "Human"
    else if d20 < 17 then "Dwarf"
    else if d20 == 17 then "Halfling"
    else if d20 == 18 then "Gnome"
    else if d20 == 19 then "Elf"
    else if d10 < 7 then "Half-Elf"
    else if d10 < 9 then "Half-Orc"
    else if d10 == 9 then "Dragonborn"
    else "Tiefling"
  }

  /**
   * The d10 matters only on a 20; each die value picks the race its band names, so over 1..20
   * the d20 gives fourteen chances in twenty of a human.
   */
  lemma RaceBands(d20: int, d10: int, other: int)
    ensures d20 < 20 ==> RaceFromRolls(d20, d10) == RaceFromRolls(d20, other)
    ensures RaceFromRolls(d20, d10) == "Human" <==> d20 < 15
    ensures RaceFromRolls(d20, d10) == "Dwarf" <==> 15 <= d20 <= 16
    ensures d20 >= 20 ==> (RaceFromRolls(d20, d10) == "Half-Elf" <==> d10 <= 6)
    ensures d20 >= 20 ==> (RaceFromRolls(d20, d10) == "Half-Orc" <==> 7 <= d10 <= 8)
    ensures RaceFromRolls(d20, d10) in {"Human", "Dwarf", "Halfling", "Gnome", "Elf", "Half-Elf", "Half-Orc", "Dragonborn", "Tiefling"}
  {
  }

  /** The race whose name list is used: mixed heritages pick a parent's list on a d2. */
  function NameRace(race: string, d2: int): string {
    var r := Lower(race);
    if r == "half-elf" then (if d2 == 1 then "elf" else "human")
    else if Contains(r, "orc") then (if d2 == 1 then "orc" else "human")
    else if r == "tiefling" && d2 == 2 then "human"
    else r
  }

  /** The name: two generated names joined by a space when the d4 is below 4, else one. */
  function FullName(race: string, d2: int, d4: int, generated: nat -> string -> string): string {
    var r := NameRace(race, d2);
    if d4 < 4 then generated(0)(r) + " " + generated(1)(r) else generated(0)(r)
  }

  /** The name lists used for the mixed races: a parent's list on the d2. */
  lemma NameRaceOfHalfElf(d2: int)
    ensures NameRace("Half-Elf", d2) == (if d2 == 1 then "elf" else "human")
  {
    assert Lower("Half-Elf") == "half-elf";
  }

  lemma NameRaceOfHalfOrc(d2: int)
    ensures NameRace("Half-Orc", d2) == (if d2 == 1 then "orc" else "human")
  {
    LowerHalfOrc();
    HalfOrcContainsOrc();
  }

  lemma LowerHalfOrc()
    ensures Lower("Half-Orc") == "half-orc"
  {
    var r := Lower("Half-Orc");
    assert r == "half-orc";
  }

  lemma HalfOrcContainsOrc()
    ensures Contains("half-orc", "orc")
  {
    var r := "half-orc";
    assert r[5..][..3] == "orc";
    assert Contains(r[5..], "orc");
    assert Contains(r[4..], "orc");
    assert Contains(r[3..], "orc");
    assert Contains(r[2..], "orc");
    assert Contains(r[1..], "orc");
  }

  /** A tiefling uses the human list on a d2 of 2, else its own. */
  lemma NameRaceOfTiefling(d2: int)
    ensures NameRace("Tiefling", d2) == (if d2 == 2 then "human" else "tiefling")
  {
    var r := Lower("Tiefling");
    assert r == "tiefling";
    assert Lacks(r, 'o');
    LacksHead(r, "orc");
  }

  /** Any other race (human, dwarf, halfling, gnome, elf, dragonborn) uses its own list. */
  lemma NameRaceOfPlain(race: string, d2: int)
    requires !Contains(Lower(race), "orc") && Lower(race) != "half-elf" && Lower(race) != "tiefling"
    ensures NameRace(race, d2) == Lower(race)
  {
  }

  /** A string without a 'c' does not contain "orc". */
  lemma {:induction false} LacksCNoOrc(s: string)
    requires Lacks(s, 'c')
    ensures !Contains(s, "orc")
    decreases |s|
  {
    if |s| > 0 {
      assert !StartsWith(s, "orc") by {
        if |s| >= 3 {
          assert s[..3][2] == s[2] != 'c';
        }
      }
      LacksCNoOrc(s[1..]);
    }
  }

  /** Every race `generate_npc` draws other than the mixed ones is named from its own list. */
  lemma GeneratedPlainRaces(d20: int, d10: int, d2: int)
    requires RaceFromRolls(d20, d10) !in {"Half-Elf", "Half-Orc", "Tiefling"}
    ensures NameRace(RaceFromRolls(d20, d10), d2) == Lower(RaceFromRolls(d20, d10))
  {
    var race := RaceFromRolls(d20, d10);
    var r := Lower(race);
    assert Lacks(race, 'c') && Lacks(race, 'C');
    assert Lacks(r, 'c');
    assert |r| == |race|;
    assert |race| == 8 ==> race == "Halfling";
    assert |r| == 8 ==> r[0] == 'h' && r[4] == 'l';
    assert r != "half-elf" && r != "tiefling";
    LacksCNoOrc(r);
    NameRaceOfPlain(race, d2);
  }

  /** With one-word generated names, the full name is two words when the d4 is below 4, else one. */
  lemma FullNameWords(race: string, d2: int, d4: int, generated: nat -> string -> string)
    requires forall i: nat, r :: Lacks(generated(i)(r), ' ')
    ensures var parts := Split(FullName(race, d2, d4, generated), " ");
            |parts| == (if d4 < 4 then 2 else 1)
            && parts[0] == generated(0)(NameRace(race, d2))
  {
    var r := NameRace(race, d2);
    assert Lacks(generated(0)(r), ' ') && Lacks(generated(1)(r), ' ');
    SplitLacking(generated(0)(r), ' ');
    SplitLacking(generated(1)(r), ' ');
    if d4 < 4 {
      SplitAtChar(generated(0)(r), ' ', generated(1)(r));
    }
  }

  /**
   * `generate_npc`: alignment from two d3s, sex from a d2, race from a d20 (and a d10 on a 20),
   * the name from the race, an empty trade, and the given notes.
   */
  method GenerateNpc(lawRoll: int, moralRoll: int, sexRoll: int, d20: int, d10: int,
                     nameD2: int, nameD4: int, generated: nat -> string -> string, notes: seq<string>)
    returns (npc: Character)
    ensures fresh(npc)
    ensures npc.lawAlignment == LawFromRoll(lawRoll) && npc.moralAlignment == MoralFromRoll(moralRoll)
    ensures npc.sex == sexRoll && npc.race == RaceFromRolls(d20, d10)
    ensures npc.name == FullName(npc.race, nameD2, nameD4, generated)
    ensures npc.trade == "" && npc.notes == notes
  {
    npc := new Character();
    SetAlignment(npc, lawRoll, moralRoll);
    npc.sex := sexRoll;
    SetRace(npc, d20, d10);
    npc.name := FullName(npc.race, nameD2, nameD4, generated);
    npc.trade := "";
    npc.notes := notes;
  }

  /** The alignment steps of `generate_npc`. */
  method SetAlignment(npc: Character, lawRoll: int, moralRoll: int)
    modifies npc
    ensures npc.lawAlignment == LawFromRoll(lawRoll) && npc.moralAlignment == MoralFromRoll(moralRoll)
    ensures npc.sex == old(npc.sex) && npc.race == old(npc.race) && npc.name == old(npc.name)
    ensures npc.trade == old(npc.trade) && npc.notes == old(npc.notes)
  {
    if lawRoll == 1 {
      npc.lawAlignment := LAWFUL;
    } else {
      npc.lawAlignment := if lawRoll == 2 then CHAOTIC else NEUTRAL;
    }
    if moralRoll == 1 {
      npc.moralAlignment := GOOD;
    } else {
      npc.moralAlignment := if moralRoll == 2 then EVIL else NEUTRAL;
    }
  }

  /** The race steps of `generate_npc`. */
  method SetRace(npc: Character, d20: int, d10: int)
    modifies npc
    ensures npc.race == RaceFromRolls(d20, d10)
    ensures npc.lawAlignment == old(npc.lawAlignment) && npc.moralAlignment == old(npc.moralAlignment)
    ensures npc.sex == old(npc.sex) && npc.name == old(npc.name)
    ensures npc.trade == old(npc.trade) && npc.notes == old(npc.notes)
  {
    if d20 < 15 {
      npc.race := "Human";
    } else if d20 < 17 {
      npc.race := "Dwarf";
    } else if d20 == 17 {
      npc.race := "Halfling";
    } else if d20 == 18 {
      npc.race := "Gnome";
    } else if d20 == 19 {
      npc.race := "Elf";
    } else if d10 < 7 {
      npc.race := "Half-Elf";
    } else if d10 < 9 {
      npc.race := "Half-Orc";
    } else if d10 == 9 {
      npc.race := "Dragonborn";
    } else {
      npc.race := "Tiefling";
    }
  }
}
