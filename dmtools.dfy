/**
 * The session store of dmtools.py: the active entities (JSON values by name, always holding
 * "encounter" and a "notes" list), the id counter, and the commands that read and update them.
 * JSON files are a lookup `files` (None where opening fails); file writes are the map `do_save`
 * returns; the values `roll.parse` returns for the treasure dice are the stream `rolls`.
 */
module DMTools {
  import opened Wrappers
  import opened Strings

  /** The JSON values the entities are made of. */
  datatype Value = Int(i: int) | Str(s: string) | List(items: seq<Value>) | Object(fields: map<string, Value>)

  /** Where `load` found an entity: under an active name, or at an index of the encounter list. */
  datatype Place = Active(name: string) | InEncounter(index: nat)

  /** `load_json`: the parsed file, or `{}` when it cannot be opened. */
  function LoadJson(files: string -> Option<Value>, name: string): Value {
    files(name).GetOr(Object(map[]))
  }

  /** What `for npc in active_entities["encounter"]` walks over; TypeError where the loop would raise. */
  function EncounterNpcs(v: Value): Result<seq<Value>> {
    match v
    case List(items) => Ok(items)
    case Object(fields) => if |fields| == 0 then Ok([]) else Err("TypeError")
    case Str(s) => if s == "" then Ok([]) else Err("TypeError")
    case Int(_) => Err("TypeError")
  }

  /** `str(npc["key"])`: None for a key that is itself a list or an object, whose text is not modelled. */
  function KeyText(npc: Value): Result<Option<string>> {
    if !npc.Object? then Err("TypeError")
    else if "key" !in npc.fields then Err("KeyError")
    else match npc.fields["key"]
      case Int(i) => Ok(Some(IntToString(i)))
      case Str(s) => Ok(Some(s))
      case _ => Ok(None)
  }

  /** The first index, from `start` on, whose NPC key reads as `name`. */
  function FindNpc(npcs: seq<Value>, name: string, start: nat): (r: Result<Option<nat>>)
    requires start <= |npcs|
    ensures r.Ok? && r.value.Some? ==> start <= r.value.value < |npcs|
    decreases |npcs| - start
  {
    if start == |npcs| then Ok(None)
    else match KeyText(npcs[start])
      case Err(e) => Err(e)
      case Ok(t) => if t == Some(name) then Ok(Some(start)) else FindNpc(npcs, name, start + 1)
  }

  /** The found index really matches, and no earlier NPC does. */
  lemma {:induction false} FindNpcFirst(npcs: seq<Value>, name: string, start: nat)
    requires start <= |npcs|
    requires FindNpc(npcs, name, start).Ok?
    ensures forall k :: start <= k < |npcs| && (FindNpc(npcs, name, start).value.None? || k < FindNpc(npcs, name, start).value.value)
              ==> KeyText(npcs[k]).Ok? && KeyText(npcs[k]).value != Some(name)
    ensures FindNpc(npcs, name, start).value.Some? ==> KeyText(npcs[FindNpc(npcs, name, start).value.value]) == Ok(Some(name))
    decreases |npcs| - start
  {
    if start < |npcs| && KeyText(npcs[start]).Ok? && KeyText(npcs[start]).value != Some(name) {
      FindNpcFirst(npcs, name, start + 1);
    }
  }

  /** The outcome of `load`: the entity, the new active map, and where the entity lives. */
  datatype Loaded = Loaded(entity: Value, active: map<string, Value>, place: Place)

  /**
   * `load(name)`: an active entity first; then an encounter NPC whose key reads as the name,
   * not cached; otherwise the file, cached under the name.
   */
  function LoadResult(active: map<string, Value>, name: string, files: string -> Option<Value>): Result<Loaded>
    requires "encounter" in active
  {
    if name in active then Ok(Loaded(active[name], active, Active(name)))
    else match EncounterNpcs(active["encounter"])
      case Err(e) => Err(e)
      case Ok(npcs) =>
        match FindNpc(npcs, name, 0)
        case Err(e) => Err(e)
        case Ok(Some(i)) => Ok(Loaded(npcs[i], active, InEncounter(i)))
        case Ok(None) =>
          var e := LoadJson(files, name);
          Ok(Loaded(e, active[name := e], Active(name)))
  }

  /** Loading keeps every active entity, and what it returns is then reachable at its place. */
  lemma LoadKeeps(active: map<string, Value>, name: string, files: string -> Option<Value>)
    requires "encounter" in active
    requires LoadResult(active, name, files).Ok?
    ensures var l := LoadResult(active, name, files).value;
            && (forall k :: k in active ==> k in l.active && l.active[k] == active[k])
            && l.active.Keys <= active.Keys + {name}
            && (l.place.Active? ==> l.place.name == name && name in l.active && l.active[name] == l.entity)
            && (l.place.InEncounter? ==>
                  (l.active == active && active["encounter"].List? && l.place.index < |active["encounter"].items|
                   && active["encounter"].items[l.place.index] == l.entity))
  {
  }

  /** A second `load` of the same name finds the entity the first one cached, and changes nothing. */
  lemma LoadCaches(active: map<string, Value>, name: string, files: string -> Option<Value>, later: string -> Option<Value>)
    requires "encounter" in active
    requires LoadResult(active, name, files).Ok? && LoadResult(active, name, files).value.place.Active?
    ensures var l := LoadResult(active, name, files).value;
            LoadResult(l.active, name, later) == Ok(Loaded(l.entity, l.active, Active(name)))
  {
  }

  /** The active map with `entity` written back where `load` found it. */
  function Store(active: map<string, Value>, place: Place, entity: Value): map<string, Value>
    requires "encounter" in active
  {
    match place
    case Active(name) => active[name := entity]
    case InEncounter(i) =>
      var enc := active["encounter"];
      if enc.List? && i < |enc.items| then active["encounter" := List(enc.items[i := entity])] else active
  }

  /** `int(x)` for a stored value. */
  function IntOf(v: Value): Result<int> {
    match v
    case Int(i) => Ok(i)
    case Str(s) => if ParseInt(s).Some? then Ok(ParseInt(s).value) else Err("ValueError")
    case _ => Err("TypeError")
  }

  /** The property value `do_set` stores: `--k`/`++k` adjust the old value as an int, else the text. */
  function NewProperty(entity: Value, property: string, value: string): Result<Value> {
    if StartsWith(value, "--") || StartsWith(value, "++") then
      match ParseInt(value[2..])
      case None => Err("ValueError")
      case Some(mod) =>
        if !entity.Object? then Err("TypeError")
        else if property !in entity.fields then Err("KeyError")
        else match IntOf(entity.fields[property])
          case Err(e) => Err(e)
          case Ok(current) => Ok(Int(if StartsWith(value, "--") then current - mod else current + mod))
    else if !entity.Object? then Err("TypeError")
    else Ok(Str(value))
  }

  /**
   * `do_set(line)`: the outcome, and the active map afterwards, which keeps what `load` cached
   * even when the update then fails. The closing `entity in active_entities["encounter"]` test
   * raises TypeError, after the update, unless the encounter is a list.
   */
  function SetResult(active: map<string, Value>, line: string, files: string -> Option<Value>): (Result<()>, map<string, Value>)
    requires "encounter" in active
  {
    var parts := SplitMax(line, " ", 2);
    if |parts| != 3 then (Err("ValueError"), active)
    else match LoadResult(active, parts[0], files)
      case Err(e) => (Err(e), active)
      case Ok(l) =>
        match NewProperty(l.entity, parts[1], parts[2])
        case Err(e) => (Err(e), l.active)
        case Ok(v) =>
          var updated := Object(l.entity.fields[parts[1] := v]);
          var after := Store(l.active, l.place, updated);
          (if after["encounter"].List? then Ok(()) else Err("TypeError"), after)
  }

  /** Unless the encounter is a list, `do_set` never completes: it raises before or after updating. */
  lemma SetNeedsEncounterList(active: map<string, Value>, line: string, files: string -> Option<Value>)
    requires "encounter" in active && !active["encounter"].List?
    ensures SetResult(active, line, files).0.Err?
  {
  }

  /** A plain value is stored verbatim, and an adjustment of an int property adds or subtracts. */
  lemma NewPropertyMeaning(fields: map<string, Value>, property: string, value: string)
    ensures !StartsWith(value, "--") && !StartsWith(value, "++") ==>
              NewProperty(Object(fields), property, value) == Ok(Str(value))
    ensures |value| >= 2 && ParseInt(value[2..]).Some? && property in fields && fields[property].Int? ==>
              var mod, current := ParseInt(value[2..]).value, fields[property].i;
              && (value[..2] == "++" ==> NewProperty(Object(fields), property, value) == Ok(Int(current + mod)))
              && (value[..2] == "--" ==> NewProperty(Object(fields), property, value) == Ok(Int(current - mod)))
  {
  }

  /** `do_set goblin hp ++- 3` on 10 hit points stores 7: `int()` allows whitespace after the sign. */
  lemma AdjustWithSpacedSign()
    ensures NewProperty(Object(map["hp" := Int(10)]), "hp", "++- 3") == Ok(Int(7))
  {
    var value := "++- 3";
    assert NatToString(3) == "3";
    assert value[2..] == ['-'] + " " + NatToString(3);
    SignThenSpaces('-', " ", 3);
    assert ParseInt(value[2..]) == Some(-3);
    assert StartsWith(value, "++") && !StartsWith(value, "--");
    assert IntOf(Int(10)) == Ok(10);
  }

  /**
   * After a successful set on an active entity, loading the name shows the new property value;
   * such an entity is never the encounter itself, since storing an object there ends in TypeError.
   */
  lemma SetThenLoad(active: map<string, Value>, line: string, files: string -> Option<Value>, later: string -> Option<Value>)
    requires "encounter" in active
    requires SetResult(active, line, files).0.Ok?
    requires LoadResult(active, SplitMax(line, " ", 2)[0], files).value.place.Active?
    ensures SplitMax(line, " ", 2)[0] != "encounter"
    ensures var parts := SplitMax(line, " ", 2);
            var after := SetResult(active, line, files).1;
            && LoadResult(after, parts[0], later).Ok?
            && var e := LoadResult(after, parts[0], later).value.entity;
               e.Object? && parts[1] in e.fields
               && Ok(e.fields[parts[1]]) == NewProperty(LoadResult(active, parts[0], files).value.entity, parts[1], parts[2])
  {
  }

  /** What `do_save(target)` writes: one active entity, nothing, or all of them without empty notes. */
  function Saved(active: map<string, Value>, target: string): map<string, Value> {
    if |target| > 0 then (if target in active then map[target := active[target]] else map[])
    else if "notes" in active && active["notes"] == List([]) then active - {"notes"}
    else active
  }

  /** Empty notes are left out only when saving everything; a named save writes just that entity. */
  lemma SavedEntities(active: map<string, Value>, target: string)
    requires "notes" in active
    ensures |target| == 0 ==> Saved(active, target).Keys == if active["notes"] == List([]) then active.Keys - {"notes"} else active.Keys
    ensures |target| == 0 ==> forall k :: k in Saved(active, target) ==> Saved(active, target)[k] == active[k]
    ensures |target| > 0 ==> Saved(active, target).Keys == if target in active then {target} else {}
  {
  }

  /** Treasure denominations by d100 band for challenge ratings 1 to 4. */
  function BandDenom(band: int): string {
    if band < 31 then "cp" else if band < 61 then "sp" else if band < 71 then "sp" else if band < 96 then "gp" else "gp"
  }

  /** One iteration's coins for a d100 band: the dice of that band (5d6, 4d6, 3d6x10, 3d6, 1d6x10). */
  function BandCoins(band: int, roll: int): int {
    if band < 31 then roll else if band < 61 then roll else if band < 71 then roll * 10 else if band < 96 then roll else roll * 10
  }

  /** The sum of the first `n` rolls from `from` on, each scaled for the band. */
  function BandTotal(band: int, rolls: nat -> int, from: nat, n: nat): int {
    if n == 0 then 0 else BandTotal(band, rolls, from, n - 1) + BandCoins(band, rolls(from + n - 1))
  }

  /** The amount and denomination `do_treasure` prints for `num` hoards at challenge rating `cr`. */
  function Treasure(num: int, cr: int, rolls: nat -> int): (int, string) {
    if cr == 0 then (if num > 0 then (BandTotal(0, rolls, 0, num), "cp") else (0, "gp"))
    else if cr < 5 then (if num > 0 then (BandTotal(rolls(0), rolls, 1, num), BandDenom(rolls(0))) else (0, "gp"))
    else (0, "gp")
  }

  /** `do_treasure(line)`: two words, the count then the challenge rating. */
  function TreasureText(line: string, rolls: nat -> int): Result<string> {
    var words := Words(line);
    if |words| != 2 then Err("ValueError")
    else if ParseInt(words[1]).None? || ParseInt(words[0]).None? then Err("ValueError")
    else
      var (amount, denom) := Treasure(ParseInt(words[0]).value, ParseInt(words[1]).value, rolls);
      Ok(IntToString(amount) + " " + denom)
  }

  /** Ratings of 5 and above, and counts of 0 or less, give "0 gp". */
  lemma TreasureNothing(num: int, cr: int, rolls: nat -> int)
    requires cr >= 5 || num <= 0
    ensures Treasure(num, cr, rolls) == (0, "gp")
  {
  }

  /**
   * For ratings 1 to 4 the first roll alone fixes the band: two roll streams that agree on it
   * give the same denomination, and each hoard is scaled by that band.
   */
  lemma TreasureBandFixed(num: int, cr: int, rolls: nat -> int, other: nat -> int)
    requires cr != 0 && cr < 5 && num > 0 && rolls(0) == other(0)
    ensures Treasure(num, cr, rolls).1 == Treasure(num, cr, other).1 == BandDenom(rolls(0))
  {
  }

  /** With every d10 in 1..10, rating 0 yields between `num` and `10 num` copper pieces. */
  lemma {:induction false} CopperBounds(rolls: nat -> int, n: nat)
    requires forall k :: 0 <= k < n ==> 1 <= rolls(k) <= 10
    ensures n <= BandTotal(0, rolls, 0, n) <= 10 * n
  {
    if n > 0 {
      CopperBounds(rolls, n - 1);
    }
  }

  // ---------------------------------------------------------------- the session object

  class Session {
    var activeEntities: map<string, Value>
    var currentId: int

    /** "encounter" is always there, and "notes" is always a list. */
    ghost predicate Valid()
      reads this
    {
      "encounter" in activeEntities && "notes" in activeEntities && activeEntities["notes"].List?
    }

    /** `__init__`: the encounter file (or `{}`), no notes, and the id counter at 0. */
    constructor(files: string -> Option<Value>)
      ensures Valid()
      ensures activeEntities == map["encounter" := LoadJson(files, "encounter"), "notes" := List([])]
      ensures currentId == 0
    {
      activeEntities := map["encounter" := LoadJson(files, "encounter"), "notes" := List([])];
      currentId := 0;
    }

    /** `get_next_id`: the counter goes up by one and the new value is the id. */
    method GetNextId() returns (id: int)
      modifies this
      ensures currentId == old(currentId) + 1 && id == currentId
      ensures activeEntities == old(activeEntities)
    {
      currentId := currentId + 1;
      id := currentId;
    }

    /** `do_forget`: exactly an empty encounter and no notes remain. */
    method Forget()
      modifies this
      ensures Valid()
      ensures activeEntities == map["encounter" := List([]), "notes" := List([])]
      ensures currentId == old(currentId)
    {
      activeEntities := map["encounter" := List([]), "notes" := List([])];
    }

    /** `do_note`: the text goes to the end of the notes; nothing else changes. */
    method Note(text: string)
      requires Valid()
      modifies this
      ensures Valid()
      ensures activeEntities == old(activeEntities)["notes" := List(old(activeEntities)["notes"].items + [Str(text)])]
      ensures currentId == old(currentId)
    {
      var notes := activeEntities["notes"].items;
      activeEntities := activeEntities["notes" := List(notes + [Str(text)])];
    }

    /** `load`: look the name up, then the encounter, then the files, caching what the files give. */
    method Load(name: string, files: string -> Option<Value>) returns (r: Result<Value>)
      requires Valid()
      modifies this
      ensures Valid()
      ensures LoadResult(old(activeEntities), name, files).Err? ==>
                r == Err(LoadResult(old(activeEntities), name, files).error) && activeEntities == old(activeEntities)
      ensures LoadResult(old(activeEntities), name, files).Ok? ==>
                r == Ok(LoadResult(old(activeEntities), name, files).value.entity)
                && activeEntities == LoadResult(old(activeEntities), name, files).value.active
      ensures currentId == old(currentId)
    {
      var l := LoadPlace(name, files);
      match l
      case Err(e) => r := Err(e);
      case Ok(loaded) => r := Ok(loaded.entity);
    }

    /** The lookup of `load`, with where the entity was found. */
    method LoadPlace(name: string, files: string -> Option<Value>) returns (r: Result<Loaded>)
      requires Valid()
      modifies this
      ensures Valid()
      ensures r == LoadResult(old(activeEntities), name, files)
      ensures r.Err? ==> activeEntities == old(activeEntities)
      ensures r.Ok? ==> activeEntities == r.value.active
      ensures currentId == old(currentId)
    {
      if name in activeEntities {
        return Ok(Loaded(activeEntities[name], activeEntities, Active(name)));
      }
      var npcs := EncounterNpcs(activeEntities["encounter"]);
      if npcs.Err? {
        return Err(npcs.error);
      }
      var i := 0;
      while i < |npcs.value|
        invariant 0 <= i <= |npcs.value|
        invariant FindNpc(npcs.value, name, 0) == FindNpc(npcs.value, name, i)
      {
        var key := KeyText(npcs.value[i]);
        if key.Err? {
          return Err(key.error);
        }
        if key.value == Some(name) {
          return Ok(Loaded(npcs.value[i], activeEntities, InEncounter(i)));
        }
        i := i + 1;
      }
      var entity := LoadJson(files, name);
      activeEntities := activeEntities[name := entity];
      r := Ok(Loaded(entity, activeEntities, Active(name)));
    }

    /** `do_set(line)`: "name property value", applied to the loaded entity where it lives. */
    method Set(line: string, files: string -> Option<Value>) returns (r: Result<()>)
      requires Valid()
      modifies this
      ensures Valid()
      ensures (r, activeEntities) == SetResult(old(activeEntities), line, files)
      ensures currentId == old(currentId)
    {
      var parts := SplitMax(line, " ", 2);
      if |parts| != 3 {
        return Err("ValueError");
      }
      var l := LoadPlace(parts[0], files);
      if l.Err? {
        return Err(l.error);
      }
      var v := NewProperty(l.value.entity, parts[1], parts[2]);
      if v.Err? {
        return Err(v.error);
      }
      var updated := Object(l.value.entity.fields[parts[1] := v.value]);
      match l.value.place {
        case Active(n) =>
          activeEntities := activeEntities[n := updated];
        case InEncounter(i) =>
          var enc := activeEntities["encounter"];
          if enc.List? && i < |enc.items| {
            activeEntities := activeEntities["encounter" := List(enc.items[i := updated])];
          }
      }
      r := if activeEntities["encounter"].List? then Ok(()) else Err("TypeError");
    }

    /**
     * `do_save(target)`: returns what is written to the files; the session itself is left as it
     * was, with "notes" put back after an empty list was dropped from a full save.
     */
    method Save(target: string) returns (written: map<string, Value>)
      requires Valid()
      modifies this
      ensures Valid()
      ensures written == Saved(old(activeEntities), target)
      ensures activeEntities == old(activeEntities) && currentId == old(currentId)
    {
      if |target| > 0 {
        if target in activeEntities {
          written := map[target := activeEntities[target]];
        } else {
          written := map[];
        }
        return;
      }
      if |activeEntities["notes"].items| == 0 {
        activeEntities := activeEntities - {"notes"};
      }
      written := map[];
      var keys := activeEntities.Keys;
      while keys != {}
        invariant keys <= activeEntities.Keys
        invariant written.Keys == activeEntities.Keys - keys
        invariant forall k :: k in written ==> written[k] == activeEntities[k]
        decreases keys
      {
        var k :| k in keys;
        written := written[k := activeEntities[k]];
        keys := keys - {k};
      }
      assert written == activeEntities;
      if "notes" !in activeEntities {
        activeEntities := activeEntities["notes" := List([])];
      }
    }

    /** `do_treasure(line)`: the printed text; the session does not change. */
    method TreasureCommand(line: string, rolls: nat -> int) returns (r: Result<string>)
      ensures r == TreasureText(line, rolls)
    {
      var words := Words(line);
      if |words| != 2 {
        return Err("ValueError");
      }
      var amount := 0;
      var denom := "gp";
      var cr := ParseInt(words[1]);
      if cr.None? {
        return Err("ValueError");
      }
      var num := ParseInt(words[0]);
      if num.None? {
        return Err("ValueError");
      }
      if cr.value == 0 {
        amount, denom := CopperHoards(num.value, rolls);
      } else if cr.value < 5 {
        amount, denom := BandHoards(num.value, rolls);
      }
      assert (amount, denom) == Treasure(num.value, cr.value, rolls);
      r := Ok(IntToString(amount) + " " + denom);
    }
  }

  /** The rating-0 loop of `do_treasure`: a d10 of copper per hoard. */
  method CopperHoards(num: int, rolls: nat -> int) returns (amount: int, denom: string)
    ensures amount == Treasure(num, 0, rolls).0 && denom == Treasure(num, 0, rolls).1
  {
    amount := 0;
    denom := "gp";
    var i := 0;
    while i < num
      invariant 0 <= i <= (if num > 0 then num else 0)
      invariant amount == BandTotal(0, rolls, 0, i)
      invariant denom == if i > 0 then "cp" else "gp"
    {
      amount := amount + rolls(i);
      denom := "cp";
      i := i + 1;
    }
    if num > 0 {
      assert i == num;
      assert Treasure(num, 0, rolls) == (BandTotal(0, rolls, 0, i), "cp");
    } else {
      assert Treasure(num, 0, rolls) == (0, "gp");
    }
  }

  /** The rating 1-4 loop of `do_treasure`: one d100 fixes the band, then each hoard rolls its dice. */
  method BandHoards(num: int, rolls: nat -> int) returns (amount: int, denom: string)
    ensures amount == Treasure(num, 1, rolls).0 && denom == Treasure(num, 1, rolls).1
  {
    amount := 0;
    denom := "gp";
    var result := rolls(0);
    var i := 0;
    while i < num
      invariant 0 <= i <= (if num > 0 then num else 0)
      invariant amount == BandTotal(result, rolls, 1, i)
      invariant denom == if i > 0 then BandDenom(result) else "gp"
    {
      var roll := rolls(1 + i);
      if result < 31 {
        amount := amount + roll;
        denom := "cp";
      } else if result < 61 {
        amount := amount + roll;
        denom := "sp";
      } else if result < 71 {
        amount := amount + roll * 10;
        denom := "sp";
      } else if result < 96 {
        amount := amount + roll;
        denom := "gp";
      } else {
        amount := amount + roll * 10;
        denom := "gp";
      }
      i := i + 1;
    }
    if num > 0 {
      assert i == num;
      assert Treasure(num, 1, rolls) == (BandTotal(result, rolls, 1, i), BandDenom(result));
    }
  }
}
