# dmtools in Dafny

dmtools is a small toolkit for a tabletop game master. It has:

- a dice roller (`roll.parse`) that reads notation such as `2d6+3`;
- a name generator (`names.py`) that cuts names into tokens and strings tokens drawn from a
  corpus of names back together;
- a text-table printer with a progress bar and titles (`printing.py`);
- an encounter parser that turns `3 wolves and 1 bandit` into `(npc_wolve, 3), (npc_bandit, 1)`;
- an NPC generator that maps dice rolls to alignment, race and name shape (`npc.py`);
- an interactive session (`dmtools.py`) that keeps the active entities, an id counter and notes;
- a terrain-map script (`worldgen.py`) that thresholds a coastline, traces moisture against the
  wind, classifies biomes, colours, dithers and hill-shades the image, and raises mountains
  along region neighbours.

This project models those parts as Dafny modules, one per source file:

- `Roll`, `Names`, `Printing`, `Encounter`, `Npc` and `DMTools`;
- `WorldGen`, `WorldGenMoisture`, `WorldGenBiomes` and `WorldGenRender`, which split
  `worldgen.py` by pipeline stage;
- `Strings`, which holds the Python string operations the sources rely on (`strip`, `split`,
  `join`, `lower`, `title`, `ljust`, `int()`, `str()`);
- `Wrappers`, which holds the `Option`/`Result` types.

Inputs the programs take from outside become parameters:

- dice, `random.choice` and `np.random` draws are streams (`nat -> int`, `nat -> real`) or pick
  indices;
- file contents are given as lists of lines or as a lookup from names to JSON values;
- the wind map, the noise grids and the resized byte grids are arrays.

The numpy stages are `array2`/`array3` methods that update cells in place, as the script does.
`table` and the session are classes whose methods reassign their fields. Loops in the source become
`for` and `while` loops whose invariants prove them against specification functions. The properties the source promises are
lemmas about those functions.

Where the code and its documentation differ, the model follows the code:

- The biome table's last column is itself OCEAN, so the wettest moisture bin always gives OCEAN.
- `roll.parse` reads only one modifier digit, so `2d6+10` adds 1.

## Model

| member | source | states |
|---|---|---|
| Roll.DigitRun | roll.py:8 | a greedy `\d+` run starting at i stays inside the string |
| Roll.DigitRunShape | roll.py:8 | the run is all digits and is followed by a non-digit or the end (maximal munch) |
| Roll.DigitRunOf | roll.py:8 | any maximal digit run from i to j is exactly what DigitRun measures |
| Roll.DicePrefix | roll.py:8-9 | the dice group read spells out the consumed prefix: optional digits, 'd', at least one digit, and no digit after it |
| Roll.ModifierPrefix | roll.py:8-9 | the modifier group is an optional '+'/'-' followed by exactly one digit, spelling out the prefix it reads |
| Roll.MatchReadsPrefix | roll.py:8-9 | the whole match reads a prefix of the input and spells it back, and its groups are well formed |
| Roll.ModifierText | roll.py:8-9 | re-reading the text of a sign and digit gives back the same groups |
| Roll.DiceText | roll.py:8-9 | re-reading `[N]dT` followed by a sign or the end recovers N and T and stops before the tail |
| Roll.MatchText | roll.py:8-9 | for every well-formed set of groups, matching their text gives back the same groups and consumes all of it (round trip) |
| Roll.OnlyOneModifierDigit | roll.py:8 | "2d6+10" matches count 2, type 6, '+' and modifier digit 1 |
| Roll.Parse | roll.py:7-47 | the method's result equals the specification Evaluate (match, defaults, dice total, text) |
| Roll.RollGroups | roll.py:21-47 | totalling the dice in a loop gives exactly Rolled of the groups |
| Roll.BareDigit | roll.py:21-24 | a digit with no sign and no dice group is returned as-is with nothing rolled |
| Roll.TwelveIsOne | roll.py:21-24 | "12" evaluates to 1 |
| Roll.DefaultD20 | roll.py:26-34 | "" and a sign followed by one digit have no dice group, so they roll one d20 and the total is the first draw |
| Roll.SumBounds | roll.py:36-38 | n draws each in [1, T] sum to between n and n·T |
| Roll.ResultRange | roll.py:36-39 | with dice in range, the total lies in [N, N·T] and the result is total + mod or total - mod by the sign |
| Roll.TextReadsBack | roll.py:41-47 | the text parses back to the result when mod is 0 or missing, else splits into "total op mod = result" with each number read back |
| Roll.DigitReadsBack | roll.py:22-24 | a lone digit's text reads back as its value |
| Roll.FiveParts | roll.py:46 | "a op c = d" splits on spaces into its five words |
| Names.TokenToStringShape | names.py:13-17 | token_to_string has exactly the sentinels and the line indexes as keys, with "<", ">" and each stripped line as values |
| Names.StringToTokenShape | names.py:12-16 | string_to_token's keys are exactly the sentinels and the stripped lines, and its tokens lie in -2..n-1 |
| Names.TokenMapsInverse | names.py:12-17 | token_to_string[string_to_token[s]] == s for every key s, even with repeated lines (the later index wins in both maps) |
| Names.LoadTokens | names.py:12-18 | the loop builds exactly the two specification maps, and they are inverse |
| Names.LongestMatch | names.py:56-62 | the chosen length is a key of the map, and no longer prefix up to the limit is one (longest match) |
| Names.Tokenify | names.py:52-65 | the loop returns the greedy tokenisation, which is never empty |
| Names.EmptyTokenify | names.py:63-64 | tokenify("") is [START_TOKEN] |
| Names.Stringify | names.py:67-71 | the loop returns the concatenation of each token's string in order |
| Names.StringifiedCons | names.py:69-70 | stringify of t::rest is t's string followed by stringify of rest |
| Names.StringifiedConcat | names.py:69-70 | stringify distributes over concatenation of token lists |
| Names.TokensRoundTrip | names.py:52-71 | for a tokenizable s, every token comes from the map, stringify(tokenify(s)) == s, and no tokens means s is empty |
| Names.TokensFromMap | names.py:58-59 | every token tokenify emits is a value of string_to_token |
| Names.TokensSpell | names.py:52-71 | the tokens tokenify emits spell out s again |
| Names.StringifyTokenify | names.py:52-71 | stringify(tokenify(s)) == s for every non-empty tokenizable s (round trip) |
| Names.LoadNames | names.py:23-28 | the loop builds START, the tokens, END for each name in order |
| Names.CorpusConcat | names.py:25-27 | the corpus of a + b is the corpus of a followed by that of b |
| Names.FramedKnown | names.py:26-27 | every token of a framed name has a string |
| Names.CorpusKnown | names.py:24-28 | every token of the whole corpus has a string, so stringify never fails on it |
| Names.Window | names.py:32 | `data[:-depth]` has a length w with w + depth ≤ len(data), or is empty |
| Names.Candidates | names.py:31-38 | the nested loops collect exactly the specification Choices |
| Names.ScanPosition | names.py:33-38 | one outer iteration appends exactly the matching continuations at position i |
| Names.RowFromCorpus | names.py:37-38 | every continuation appended at one position is an element of data |
| Names.AllFromCorpus | names.py:32-38 | every continuation appended over all positions is an element of data |
| Names.ChoicesFromCorpus | names.py:31-38 | the choices start with END_TOKEN and otherwise hold only elements of data |
| Names.NextToken | names.py:39 | the chosen token is END_TOKEN or an element of data |
| Names.GetNextToken | names.py:30-40 | the method picks the specification's token, which is END_TOKEN or from data |
| Names.ExtendEnds | names.py:47-48 | when the draws suffice, the extended tokens keep the seed tokens as a prefix and end with END_TOKEN |
| Names.ExtendFromCorpus | names.py:47-48 | every token appended is END_TOKEN or an element of data |
| Names.ExtendShape | names.py:47-48 | the extension is the seed, then corpus tokens, then END_TOKEN |
| Names.ExtendKnown | names.py:43-48 | every token of the extended list has a string in token_to_string |
| Names.GenerateName | names.py:42-50 | the loop returns the specification name: stringify, drop first and last characters, title-case; None when the draws run out first |
| Names.SentinelStrings | names.py:13 | the sentinels map to "<" and ">" |
| Names.InnerOfFramed | names.py:49 | `[1:-1]` of a framed stringify is the stringify of the tokens in between |
| Names.ExtendFromStart | names.py:46-48 | from an empty seed, the tokens are START, the drawn middle, END |
| Names.UnseededNameDropsSentinels | names.py:42-50 | with no seed, the name is the title-cased stringify of the drawn tokens between the sentinels |
| Printing.WithRowGrows | printing.py:19-25 | a row of the wrong length is an error; otherwise each column gets its value appended and all columns stay equally long |
| Printing.WideRowRejectedAsWritten | printing.py:20 | as written, a 257-column table rejects a 257-value row that the intended comparison accepts |
| Printing.IsNotAgreesOnSmallLengths | printing.py:20 | for lengths up to 256, `is not` agrees with `!=` |
| Printing.Table.constructor | printing.py:14-17 | one column per heading, each holding just its heading |
| Printing.Table.AddRow | printing.py:19-25 | on a length mismatch: ValueError and nothing changes; otherwise content is the appended table |
| Printing.Width | printing.py:30-33 | a column's width is at least the length of every cell |
| Printing.WidthAttained | printing.py:30-33 | some cell of a non-empty column is exactly as long as the width (it is the maximum) |
| Printing.Widths | printing.py:28-34 | one width per column, each that column's Width |
| Printing.MeasureColumns | printing.py:28-34 | the loop computes Widths |
| Printing.MeasureColumn | printing.py:30-33 | the inner loop computes a column's maximum length |
| Printing.Table.Repr | printing.py:27-49 | `__repr__` returns the specification Rendered |
| Printing.DrawRows | printing.py:36-47 | the drawing loop produces the joined lines up to `rows` |
| Printing.AppendRow | printing.py:39-42 | appending a row line leaves the earlier text as a prefix |
| Printing.AppendRule | printing.py:43-47 | appending the separator gives its line and a newline |
| Printing.CellsLength | printing.py:39-41 | the cells of a row take the sum of widths plus 3 per column |
| Printing.DashesLength | printing.py:44-46 | the separator's dashes take the sum of widths plus 3 per column |
| Printing.RowLineLength | printing.py:39-42 | every row line has the same length: sum of widths + 3·columns + 2 |
| Printing.RuleLineLength | printing.py:43-47 | the separator line has that same length |
| Printing.LinesUpToLength | printing.py:38-47 | all drawn lines have one common length |
| Printing.LinesUpToOrder | printing.py:38-47 | the drawn lines are the heading line, the separator, then each row in order |
| Printing.RowsPresent | printing.py:38-41 | every row index of the first column exists in every column |
| Printing.RenderedShape | printing.py:27-49 | the output has one line per row plus one separator after the heading, all of equal length |
| Printing.PaddedCell | printing.py:41 | each cell is padded with spaces to its column's width, which some cell attains |
| Printing.JoinLinesSnoc | printing.py:42 | adding a line appends it and a newline |
| Printing.SplitJoinLines | printing.py:42 | splitting the output on newlines gives the lines back, then an empty tail |
| Printing.CellsLackNewline | printing.py:41 | a row of cells without newlines contains none |
| Printing.DashesLackNewline | printing.py:46 | the separator's dashes contain no newline |
| Printing.LinesLackNewline | printing.py:38-47 | no drawn line contains a newline |
| Printing.RenderedSplits | printing.py:27-49 | splitting the rendered table on newlines gives exactly its lines plus an empty tail |
| Printing.FloorDiv | printing.py:59 | Python floor division: q·b ≤ a < q·b + b for b > 0, and mirrored for b < 0 |
| Printing.ProgressBarShape | printing.py:54-61 | the bar is '[' + h fill characters + (width - h) spaces + ']', with h the rounded share of the clamped value |
| Printing.HashesBounds | printing.py:58-59 | 0 ≤ h ≤ width, and h·max ≤ width·value < (h+1)·max |
| Printing.BarCells | printing.py:61 | the bar's characters are the brackets, fills then spaces |
| Printing.ProgressBarMonotone | printing.py:58-59 | a larger value never gives fewer fill characters |
| Printing.ProgressBarEmpty | printing.py:58-59 | a value of at most 0 gives no fill characters |
| Printing.ProgressBarFull | printing.py:58-59 | a value of at least max_value fills the whole bar |
| Printing.TitleUnderline | printing.py:72-75 | levels 1 and 2 give the string, a newline, and '=' or '-' as long as the string |
| Printing.TitleHashes | printing.py:76-78 | level ≤ 0 raises ValueError and only then; level > 2 gives level '#'s, a space, the string |
| Encounter.GatherInOrder | encounter.py:6-12 | gathering the per-group results succeeds iff every group does, and keeps their order |
| Encounter.GatherErrSticks | encounter.py:6-12 | once a group fails, the later groups do not matter (the exception ends the loop) |
| Encounter.Results | encounter.py:4-6 | one result per " and "-separated group |
| Encounter.Parse | encounter.py:3-13 | the loop returns the specification Encounter |
| Encounter.ParseGroup | encounter.py:7-12 | one iteration returns the specification Entry of the group |
| Encounter.EntriesInOrder | encounter.py:4-12 | one pair per group, in input order, each that group's entry |
| Encounter.EntryName | encounter.py:7-11 | the name is full = "npc_" + the last word, less its final character exactly when full ends in 's' |
| Encounter.EntryCount | encounter.py:9 | a one-word group counts 1; otherwise the count is roll.parse of the first word |
| Encounter.MiddleWordsIgnored | encounter.py:7-9 | words between the first and the last do not change the entry |
| Encounter.WolvesExample | encounter.py:3-13 | "3 wolves" gives ("npc_wolve", 3) |
| Npc.AlignmentNamesDistinct | npc.py:14-22 | the alignment strings are defined for codes 0..5 and are distinct |
| Npc.AlignmentNameOneWord | npc.py:14-22 | no alignment string holds a space |
| Npc.AlignmentReadsBack | npc.py:37-43 | "unaligned" iff both parts are UNALIGNED; otherwise the text splits back into the law and moral strings |
| Npc.SexTextDistinct | npc.py:53-58 | 1 and 2 give distinct non-empty strings; every other value gives "" |
| Npc.NotesAsLines | npc.py:48-52 | the notes text is " - note" lines joined with newlines, "" for no notes |
| Npc.NotesTextAppend | npc.py:50-51 | the text of a + b is the text of a followed by that of b |
| Npc.Character.constructor | npc.py:27-36 | a new NPC has the class defaults |
| Npc.Character.NotesStr | npc.py:48-52 | the loop returns the specification NotesText of the NPC's notes |
| Npc.GeneratedAlignment | npc.py:110-119 | law is LAWFUL/CHAOTIC/NEUTRAL, moral GOOD/EVIL/NEUTRAL, so a generated NPC is never unaligned |
| Npc.RaceBands | npc.py:121-141 | d20 below 15 Human, 15-16 Dwarf; on 20 the d10 picks Half-Elf (≤ 6) or Half-Orc (7-8); the d10 matters only on 20; every race is one of nine |
| Npc.NameRaceOfHalfElf | npc.py:62-63 | a half-elf is named as an elf on d2 = 1, else as a human |
| Npc.NameRaceOfHalfOrc | npc.py:64-65 | a half-orc, whose lower-cased race contains "orc", is named as an orc on d2 = 1, else as a human |
| Npc.NameRaceOfTiefling | npc.py:66-67 | a tiefling is named as a human on d2 = 2, else as a tiefling |
| Npc.NameRaceOfPlain | npc.py:61-67 | any other race (no "orc" in it, not half-elf or tiefling) is named by its lower-cased race |
| Npc.GeneratedPlainRaces | npc.py:61-67 | every rolled race other than Half-Elf, Half-Orc and Tiefling, Gnome and Dragonborn included, is named by its lower-cased race |
| Npc.FullNameWords | npc.py:68-70 | two space-joined names when d4 < 4, else one, the first from the name race |
| Npc.GenerateNpc | npc.py:108-145 | the new NPC's fields are the roll mappings, the generated name and the given notes |
| Npc.SetAlignment | npc.py:110-119 | only the two alignment fields change |
| Npc.SetRace | npc.py:121-141 | only the race field changes |
| DMTools.Session.constructor | dmtools.py:26-35 | the store starts as {"encounter": the loaded file, "notes": []} with id 0 |
| DMTools.Session.GetNextId | dmtools.py:65-67 | the counter goes up by one and the new value is returned; nothing else changes |
| DMTools.Session.Forget | dmtools.py:62-63 | the store becomes exactly {"encounter": [], "notes": []} |
| DMTools.Session.Note | dmtools.py:110-111 | the text is appended to the end of notes and nothing else changes |
| DMTools.Session.Load | dmtools.py:73-82 | returns the entity and new store of the specification LoadResult, or its error with the store unchanged |
| DMTools.Session.LoadPlace | dmtools.py:73-82 | `load` also reports where the entity lives, so `do_set` can update it there |
| DMTools.Session.Set | dmtools.py:149-159 | outcome and new store are SetResult's: an adjusted int or the verbatim text, written where `load` found the entity, then TypeError unless the encounter is a list |
| DMTools.SetNeedsEncounterList | dmtools.py:149-158 | unless the encounter is a list, `do_set` never completes without an error |
| DMTools.Session.Save | dmtools.py:131-147 | writes Saved(store, target) and leaves the store as it was, "notes" included |
| DMTools.Session.TreasureCommand | dmtools.py:180-208 | prints the amount and denomination of the treasure rule, or ValueError for a malformed line |
| DMTools.FindNpc | dmtools.py:77-79 | a found index lies inside the encounter list |
| DMTools.FindNpcFirst | dmtools.py:77-79 | the found NPC's key reads as the name and no earlier NPC's does |
| DMTools.LoadKeeps | dmtools.py:73-82 | load keeps every active entity, adds at most the name, and the returned entity sits where it was found |
| DMTools.LoadCaches | dmtools.py:80-82 | a second load of a cached name returns the same entity and changes nothing |
| DMTools.NewPropertyMeaning | dmtools.py:152-157 | a plain value is stored verbatim; "++k"/"--k" on an int property stores old + k / old - k |
| DMTools.SetThenLoad | dmtools.py:149-158 | after a successful set, loading the name shows the new property value, and the name is never "encounter" |
| DMTools.AdjustWithSpacedSign | dmtools.py:152-155 | "++- 3" on an hp of 10 stores 7, since `int()` skips whitespace after the sign |
| DMTools.SavedEntities | dmtools.py:131-145 | saving everything drops only an empty notes list; a named save writes just that entity, or nothing if it is not active |
| DMTools.TreasureNothing | dmtools.py:182-190 | ratings of 5 and above, or no hoards, give 0 gp |
| DMTools.TreasureBandFixed | dmtools.py:191-207 | for ratings 1-4 the one d100 roll alone fixes the denomination |
| DMTools.CopperBounds | dmtools.py:186-189 | n d10 rolls in range give between n and 10·n copper |
| DMTools.CopperHoards | dmtools.py:186-189 | the loop's amount and denomination are the rule's for rating 0 |
| DMTools.BandHoards | dmtools.py:190-207 | the loop's amount and denomination are the rule's for ratings 1-4 |
| WorldGen.Region.constructor | worldgen.py:78-87 | a new region has elevation -1, zero vertex elevations, no water, BARE, no neighbours, not visited |
| WorldGen.CoastValue | worldgen.py:117-118 | a cell ends 1 iff it is at least water_level and positive; for water_level > 0 it is 0 or 1, and 0 exactly below water_level |
| WorldGen.ZeroBelow | worldgen.py:117 | exactly the cells below water_level become 0 |
| WorldGen.OneAbove | worldgen.py:118 | exactly the positive cells become 1 |
| WorldGen.Threshold | worldgen.py:117-118 | every cell becomes its CoastValue |
| WorldGen.Mask | worldgen.py:146 | a fresh grid of the cell-wise products |
| WorldGen.MaskedCell | worldgen.py:117-146 | the mask zeroes elevation below water_level and keeps it elsewhere |
| WorldGen.MountainElevation | worldgen.py:310-316 | the new elevation is at most 1 and is either the capped continued or the capped dropped-off value |
| WorldGen.PerpendicularDropsOff | worldgen.py:307-314 | a neighbour at right angles to the direction always drops off |
| WorldGen.AlignedContinues | worldgen.py:308-312 | when closeness·det is at least 1 the mountain always continues |
| WorldGen.RaiseNeighbour | worldgen.py:306-316 | sets one neighbour's elevation to MountainElevation and nothing else |
| WorldGen.TargetAt | worldgen.py:305-316 | the k-th neighbour's target uses the k-th normal and uniform draws |
| WorldGen.GenerateMountains | worldgen.py:303-316 | every neighbour (the last write, for repeats) gets its target from the region's old elevation; the region and all other regions are unchanged |
| WorldGenMoisture.Step | worldgen.py:203-210 | a step moves by the wind's sign against ±0.5 and wraps with Python `%` into the grid |
| WorldGenMoisture.StepBack | worldgen.py:203-210 | a west step undone by an east step returns to the cell |
| WorldGenMoisture.Trace | worldgen.py:201-212 | the accumulated elevation over at most n steps lies in 0..255·n and includes the starting cell |
| WorldGenMoisture.TraceGrows | worldgen.py:201-212 | allowing one more step never lowers the accumulator |
| WorldGenMoisture.MoistureBounds | worldgen.py:194-213 | a cell stores 0 iff its elevation is 0; a land cell stores between 1 + its elevation and 1 + 255·100 |
| WorldGenMoisture.CoastalCell | worldgen.py:198-212 | a land cell whose first step reaches sea stores 1 + its elevation |
| WorldGenMoisture.TraceMoisture | worldgen.py:198-212 | the cursor loop returns 1 + Trace over MAX_MOISTURE_TRAVEL steps |
| WorldGenMoisture.MoistureRow | worldgen.py:196-213 | one row's cells become their moisture and no other row changes |
| WorldGenMoisture.GenerateMoisture | worldgen.py:194-213 | a fresh grid whose every cell is MoistureAt |
| WorldGenBiomes.Digitize | worldgen.py:229 | the bin index lies in 0..len(edges) |
| WorldGenBiomes.DigitizeBelow | worldgen.py:229 | a value below the first edge lies in bin 0 |
| WorldGenBiomes.DigitizeBrackets | worldgen.py:229 | for increasing edges, the value lies between edge n-1 and edge n |
| WorldGenBiomes.MoistureBinRange | worldgen.py:229-230 | the moisture bin lies in 0..4, and is 4 only for 255 |
| WorldGenBiomes.TemperatureBinRange | worldgen.py:237-238 | the temperature bin lies in 0..2, and is 2 iff the value is at least 130 |
| WorldGenBiomes.Classify | worldgen.py:242-252 | the cell gets a valid biome, which is OCEAN iff its elevation is 0 or its moisture is 255 |
| WorldGenBiomes.HotDryIsDesert | worldgen.py:242-250 | hot dry land is DESERT |
| WorldGenBiomes.DigitizeGrid | worldgen.py:229 | a fresh grid of Digitize - 1 per cell |
| WorldGenBiomes.ClampAbove | worldgen.py:230 | cells above the cap become the cap; the others are unchanged |
| WorldGenBiomes.BinGrid | worldgen.py:229-238 | a fresh grid of clamped bins |
| WorldGenBiomes.LookUp | worldgen.py:247-250 | every cell is the table entry for its temperature and moisture bins |
| WorldGenBiomes.OceanWhereFlat | worldgen.py:252 | exactly the zero-elevation cells become OCEAN |
| WorldGenBiomes.GenerateBiomes | worldgen.py:229-252 | a fresh grid whose every cell is Classify of its inputs |
| WorldGenRender.Colour | worldgen.py:261-264 | each biome colour has three channels |
| WorldGenRender.ColoursDistinct | worldgen.py:40-54 | different biomes have different colours |
| WorldGenRender.Dithered | worldgen.py:266-273 | for noise below 20, noise1 is dropped where it would pass 255 and noise2 where it would go below 0, so the byte stays within 19 of its base |
| WorldGenRender.ShadowedExactly | worldgen.py:278-284 | a cell is shadowed iff i > 3, j > 3, it is above sea and the cell at (-3,-3) is higher |
| WorldGenRender.ColourImage | worldgen.py:261-264 | a fresh image whose every pixel is its biome's colour |
| WorldGenRender.DitherPixel | worldgen.py:270-273 | one pixel's channels are dithered and nothing else changes |
| WorldGenRender.DitherRow | worldgen.py:270-273 | one row is dithered and the other rows are unchanged |
| WorldGenRender.Dither | worldgen.py:266-273 | every channel of every pixel is dithered |
| WorldGenRender.ComputeShadows | worldgen.py:277-284 | a fresh mask that is 1 exactly on shadowed cells |
| WorldGenRender.ShadePixel | worldgen.py:285 | a shadowed pixel is halved and nothing else changes |
| WorldGenRender.ShadeRow | worldgen.py:285 | the shadowed pixels of one row are halved and the other rows are unchanged |
| WorldGenRender.ApplyShadows | worldgen.py:285 | exactly the shadowed pixels are halved |
| WorldGenRender.PixelRange | worldgen.py:261-285 | an unshadowed pixel lies within 19 of its biome colour; a shadowed one is that value halved |
| WorldGenRender.RenderImage | worldgen.py:261-285 | a fresh image whose every channel is the colour, dithered and then halved where shadowed |
| Strings.DigitChar | roll.py:44-46 | a digit's character reads back as the digit |
| Strings.NatToString | roll.py:44-46 | `str` of a natural is a non-empty run of digits |
| Strings.IntToString | roll.py:44-46 | `str` of an int is digits, with '-' in front when negative |
| Strings.DigitsOfNat | roll.py:44-46 | reading the digits of `str(n)` gives n back |
| Strings.ParseIntOfIntToString | dmtools.py:153-155 | `int(str(i)) == i` for every integer |
| Strings.SignThenSpaces | dmtools.py:153-155 | `int()` of a sign, any whitespace, then digits reads the signed number |
| Strings.StripLeftShape | names.py:16 | stripping the left side leaves a suffix that starts with a non-space |
| Strings.StripRightShape | names.py:16 | stripping the right side leaves a prefix that ends with a non-space |
| Strings.StripTrims | names.py:16 | `strip` leaves no whitespace at either end |
| Strings.StripUnpadded | names.py:16 | `strip` leaves an unpadded string alone |
| Strings.Split | encounter.py:4 | `split` gives at least one part |
| Strings.JoinSplit | encounter.py:4 | joining the parts of a split with the separator gives the string back |
| Strings.SplitLacking | encounter.py:7 | a string without the separator splits into itself |
| Strings.SplitAtChar | encounter.py:7 | splitting at the first separator gives the part before it, then the split of the rest |
| Strings.LacksHead | npc.py:64 | a string that lacks a substring's first character does not contain it |
| Strings.SplitMax | dmtools.py:150 | `split(sep, maxsplit)` gives between 1 and maxsplit + 1 parts |
| Strings.WordLength | dmtools.py:181 | the first word of a string is a maximal run of non-space characters |
| Strings.Words | dmtools.py:181 | `split()` gives only non-empty words without whitespace |
| Strings.Lower | npc.py:61 | `lower` maps each character and keeps the length |
| Strings.Title | names.py:50 | `title` upper-cases each letter that does not follow a letter, lower-cases each letter that does, and leaves other characters alone |
| Strings.TitleOnlyRecases | names.py:50 | `title` changes only the case of letters: lower-casing before and after gives the same string |
| Strings.Repeat | printing.py:61 | `c * n` is n copies of c, empty for n ≤ 0 |
| Strings.LJust | printing.py:41 | `ljust(w)` keeps the string as a prefix and pads with spaces to w |

## Left out
- Strings: only ASCII text is modelled. Strings loaded from JSON are `unicode` in Python 2, where `int()` also accepts non-ASCII digits and whitespace (dmtools.py:154-155), and `str()` of a non-ASCII key raises UnicodeEncodeError (dmtools.py:78); neither is modelled.

- Coherent noise (`snoise2`, `get_elevation`, `generate_wind`) is a foreign C library with float output. The wind reaches the model only through the ±0.5 thresholds of a given wind grid.
- `imresize`/bytescale, `gaussian_filter`, `np.exp` redistribution, `rescale` and the latitude temperature formula are float numerics or foreign calls. Their byte outputs are inputs of the model.
- The moisture normalisation `1 - d/max(d)` is float division with no guard against a zero maximum. The model stops at the integer accumulator `d` per cell.
- `generate_temperature`, the elevation and coastline noise, `draw`, pickle checkpoints, the `os.path.isfile` skips, `plt` display and the France overlay are file, display and plotting I/O.
- The grids take any shape rather than the fixed NGRID and IMAGE sizes, and the 3-channel noise and shadow arrays are 2-D grids tiled per channel.
- WorldGenRender.Dither: the byte dithering is fused into one pass per pixel. The source adds a whole noise array and then subtracts another; each byte sees the same two guarded steps either way.
- WorldGen.GenerateMountains: requires that a region is not among its own neighbours. It reads the region's elevation and coordinates once before the loop, which is what the source reads whenever the region is not its own neighbour.
- Region coordinates, directions and draws are reals; numpy's float rounding is not modelled.
- The `cmd.Cmd` loop, `get_data_path`, argparse, `print_json`, `load_players` (`listdir`) and printing are I/O plumbing. So are the commands `do_encounter`, `do_status`, `do_describe`, `do_next`, `do_previous`, `do_name`, `do_roll`, `do_active` and `do_info`.
- `load_json` is a lookup from names to optional JSON values, and `do_save`'s file writes are the map the method returns.
- DMTools.KeyText: `str()` of a list or object key is not modelled; such a key never matches a name.
- DMTools.Value: JSON floats, booleans and null are not represented, so `int()` of a float, bool or None in `do_set` (dmtools.py:154-155) and `str()` of a float key in `load` (dmtools.py:78) are not modelled.
- DMTools.Session.Set: Python aliasing is modelled by writing the updated entity back where `load` found it. The `do_status` call (dmtools.py:158-159) that follows an update of an entity equal (by `==`) to an encounter NPC is left out with all its effects. Its `load_players` (dmtools.py:93-95) caches every `players/<name>` file in the store. It raises KeyError when a player or NPC lacks a tabulated field (dmtools.py:168-176), and OSError when `players/` is missing. Session.Set's new store and outcome include none of these.
- `npc.generate_notes`, `generate_trade` and `NPC.description` are file reading or title-case formatting. Notes are a parameter of GenerateNpc.
- Random choices (`random.choice`, `random.randint`, `np.random`) are pick indices or draw streams. The values `roll.parse` returns inside `npc.py` and `do_treasure` are inputs.
- The file reading in `load_tokens` and `load_names` is left out. The maps and the corpus are built from a given list of lines.
- Names.Tokenify: requires the string to be tokenizable. The source loops forever when some position has no matching substring.
- Names.Stringify: requires every token to have a string. The source raises KeyError otherwise.
- Names.GenerateName: the draws are a finite sequence. The model returns None when they run out before END_TOKEN, where the source keeps drawing.
- Encounter.EntryName: `name[-1] is 's'` is read as `==`. CPython interns one-character strings, so the two agree.
- Printing.ProgressBar: arguments are integers. The source runs under Python 2, where `/` on ints floors and `round` of the result changes nothing. Float arguments, which round to nearest, are not modelled.
- Printing.ProgressBarShape: stated for `max_value > 0` and `width ≥ 0`. A zero `max_value` is the ZeroDivisionError the model returns; negative maxima and widths are not covered by the lemmas.
- roll.py's `__main__` argparse front end is left out.

## Findings

| source | as written | input that shows it | evidently intended | confidence | as-written member | corrected member |
|---|---|---|---|---|---|---|
| printing.py:20 | `len(values) is not len(self.content)` compares object identity | a table of 257 columns and a row of 257 values: CPython caches only ints up to 256, so the two lengths are distinct objects and a well-sized row raises ValueError | `len(values) != len(self.content)` | not executed | Printing.WideRowRejectedAsWritten | Printing.Table.AddRow |
