# AsphaltDBParser in Dafny

This project models the page parser of `AsphaltDBParser.py`. The parser reads the
plain text of one car's page on the MEI Asphalt 9 database and builds the car's record:

- the class letter and the name
- the star count and the fuel count
- the blueprint requirements, their running totals and the blueprint total, and whether
  the car unlocks by blueprints or by keys
- the epic import-part amounts and their price
- the ordered `stat` list (stock, full per star, max without epics, gold)
- the upgrade-cost ladder: cumulative totals, per-star costs and the overall total

The parser can also fail, with one of three errors of its own (no class line, no star
line, no stat block) or with a number that does not parse.

The model follows the program's layers, one module per file:

| module | file | what it holds |
|---|---|---|
| `Basics` | `basics.dfy` | `Option`, `Result` and the parser's errors |
| `Text` | `text.dfy` | `normalize_line` (whitespace, NBSP, collapse, strip), `splitlines`, the page's non-empty normalised lines |
| `Numbers` | `numbers.dfy` | `parse_number` over an exact number type `Num = Int \| Dec(mantissa, scale)`, and Python's `int()` on text |
| `Runs` | `runs.dfy` | the character classes and greedy runs the regular expressions use |
| `Sums` | `sums.dfy` | `accumulate` (running sums) and its inverse, the per-star differences |
| `Unlock` | `unlock.dfy` | `extract_bp_from_two_lines`: the slash-separated requirements and the total in parentheses |
| `Stats` | `stats.dfy` | the block header, the value of a metric line, `parse_stat_block` and the driver loop over the page |
| `Aggregate` | `aggregate.dfy` | the first entry of each kind, `best_by_star` and the `stat` list |
| `Upgrades` | `upgrades.dfy` | the upgrade ladder loop, `Total:` and the per-star loop |
| `Page` | `page.dfy` | `parse_mei_page`, scan by scan and as a whole |

A regular-expression search is modelled as the first position, from left to right, where
the pattern matches. A greedy run is the longest run of its character class. The loops of
the source are methods. Each is proved equal to a recursive function, and the properties
are lemmas about that function. The whole page is one method, `Page.ParsePage`. It is
proved equal to `Page.Assemble` applied to the results of the page's scans (`Page.ScansOf`).
The lemmas about `Assemble` state which error the page fails with and what a record
always satisfies.

The upgrade ladder first classifies each line as a `Step`:
- a line of stars opens a block;
- a line starting with "=" is a closing step, carrying the truncated number after "=", the
  error `parse_number` raises on it, or nothing;
- any other line is a plain step.

The ladder is a walk over these steps. The lemmas about it state what each kind of step
does, what one star block adds, and that a block with no "=" line after it adds nothing.

## Model

| member | source | states |
|---|---|---|
| Text.NormalizeLine | AsphaltDBParser.py:52-54 | a normalised line has no whitespace at either end |
| Text.NormalizeLineNormalized | AsphaltDBParser.py:52-54 | a normalised line holds no NBSP; its only whitespace is single spaces, and it has none at either end |
| Text.NormalizeKeepsNonSpace | AsphaltDBParser.py:52-54 | normalising keeps every non-whitespace character, in order |
| Text.NormalizeIdempotent | AsphaltDBParser.py:52-54 | normalising a normalised line changes nothing |
| Text.SplitLines | AsphaltDBParser.py:197 | splitting gives at least one piece, and no piece holds a line-break character |
| Text.SplitLinesNoBreak | AsphaltDBParser.py:197 | a text without a line break is a single line, itself |
| Text.SplitLinesBreak | AsphaltDBParser.py:197 | at the first line break, the text before it is the first line and the lines of the rest follow in order |
| Text.NormalizedLinesNormalized | AsphaltDBParser.py:197-198 | every page line is normalised |
| Text.NormalizedLinesAppend | AsphaltDBParser.py:197-198 | the page lines of two parts of a text are the lines of each part, concatenated |
| Text.NormalizedLinesFixed | AsphaltDBParser.py:197-198 | lines already non-empty and normalised come back unchanged |
| Text.PageLines | AsphaltDBParser.py:197-198 | no page line is empty |
| Text.PageLinesBreak | AsphaltDBParser.py:197-198 | the page lines keep the text's order: those of the text before a line break come first, then those of the text after it |
| Numbers.ParseNumber | AsphaltDBParser.py:57-90 | a failure is either the final ValueError or a failed `int()` |
| Numbers.ParseNumberShape | AsphaltDBParser.py:57-90 | parse_number succeeds exactly when the stripped text is a thousands-dot number, a single comma pair, a multi-comma number whose later groups have at most three characters and that `int()` accepts, a dot pair, or a digit run |
| Numbers.ParseMultiComma | AsphaltDBParser.py:77-80 | digit groups joined by two or more commas, the later ones at most three digits long, read as the integer value of all the digits |
| Numbers.ParseLongCommaGroup | AsphaltDBParser.py:77-90 | commas without a dot, not a single digit pair, and a later group longer than three characters raise |
| Numbers.IntLiteral | AsphaltDBParser.py:80 | an accepted integer literal ends in a digit, and a negative value comes from a leading minus sign |
| Numbers.PyIntDigitRun | AsphaltDBParser.py:80 | `int()` reads a plain digit run as its decimal value |
| Numbers.ParseDigitRun | AsphaltDBParser.py:86-88 | a plain digit run reads as its decimal value |
| Numbers.ParseGrouped | AsphaltDBParser.py:61-80 | digits grouped in threes by dots or by commas read as the digits' integer value |
| Numbers.ParseCommaPair | AsphaltDBParser.py:66-75 | `a,b` is an integer when b has three digits, and otherwise a decimal with b as the fraction |
| Numbers.ParseDotPair | AsphaltDBParser.py:61-63 | `a.b` is a thousands group when a has at most three digits and b has three; otherwise it is a decimal |
| Numbers.ParseRejectsForeign | AsphaltDBParser.py:57-90 | text holding a character other than whitespace, a digit, `.`, `,`, a sign or `_` is rejected |
| Numbers.ParseRejectsMixedSeparators | AsphaltDBParser.py:57-90 | text holding both a dot and a comma is rejected |
| Numbers.ParseNonNegative | AsphaltDBParser.py:57-90 | without a minus sign, a parsed number truncates to a non-negative integer |
| Numbers.Truncate | AsphaltDBParser.py:395 | truncating a non-negative decimal gives at most its mantissa and at least zero |
| Numbers.ExampleThousandDots | AsphaltDBParser.py:61-63 | "42.486.000" reads as 42486000 |
| Numbers.ExampleThousandComma | AsphaltDBParser.py:70-72 | "68,200" reads as 68200 |
| Numbers.ExampleDecimalComma | AsphaltDBParser.py:73-75 | "42,2" reads as 42.2 |
| Numbers.ExampleRejectedDot | AsphaltDBParser.py:83-90 | "." is rejected |
| Numbers.ExampleRejectedDots | AsphaltDBParser.py:62-90 | "1.2.3" is rejected |
| Numbers.ExampleRejectedCommas | AsphaltDBParser.py:77-90 | "1,2345,6" is rejected |
| Numbers.ExampleRejected | AsphaltDBParser.py:90 | "12a" is rejected |
| Sums.RunningSums | AsphaltDBParser.py:257 | each running sum is the sum of the prefix ending at that position |
| Sums.DeltasOfRunningSums | AsphaltDBParser.py:257 | the differences of `bp_cumulative` give back `bp_requirements` |
| Sums.RunningSumsOfDeltas | AsphaltDBParser.py:412-418 | the running sums of `upgrade_per_star` give back `upgrade_cumulative` |
| Sums.SumDeltas | AsphaltDBParser.py:412-418 | the per-star costs add up to the last cumulative total |
| Sums.RunningSumsMonotone | AsphaltDBParser.py:257 | running sums of non-negative amounts never decrease |
| Unlock.CleanRequirementLine | AsphaltDBParser.py:99 | the cleaned line holds no key glyph and no `+` |
| Unlock.SlashRunFrom | AsphaltDBParser.py:102 | the run found is the leftmost place where digits, a slash and digits start, extended over every further slash and digits |
| Unlock.Requirements | AsphaltDBParser.py:102-106 | requirements are found exactly when digits, a slash and digits occur in the cleaned line, and then there are at least two |
| Unlock.ChainPieces | AsphaltDBParser.py:102-106 | splitting the matched run at slashes gives digit runs, at least two of them |
| Unlock.RequirementsOfJoin | AsphaltDBParser.py:102-106 | digit runs joined by slashes, with no digit before them, read back as their values |
| Unlock.ParenAt | AsphaltDBParser.py:110 | a match at `(` is text without digits, a digit run, text without digits holding `)`, and the total is the run's value |
| Unlock.ParenTotalFrom | AsphaltDBParser.py:110-113 | a total is the digit run captured at the first `(` where the pattern matches, and the pattern matches at no earlier `(`; no total means it matches at no `(` |
| Unlock.ParenWrapped | AsphaltDBParser.py:110-113 | `(` + text without digits + a digit run + text without digits + `)` yields the run's value |
| Unlock.NoParen | AsphaltDBParser.py:110-113 | a line without `(` yields no total |
| Unlock.ExtractBp | AsphaltDBParser.py:93-120 | a result exists exactly when the cleaned first line holds a requirement run |
| Unlock.ExtractBpRequirements | AsphaltDBParser.py:102-106 | the requirements found number at least two |
| Unlock.ExtractBpParts | AsphaltDBParser.py:108-118 | when the first line has no parenthesised total, the result carries the first line's requirements and the second line's total |
| Unlock.ExtractBpLineOne | AsphaltDBParser.py:108-118 | when the first line has a parenthesised total, the result carries the first line's requirements and that total, whatever the second line says |
| Unlock.CandidateRequirements | AsphaltDBParser.py:243-248 | a line that passes the candidate test holds a requirement run once cleaned as extract_bp_from_two_lines cleans it, so the extraction succeeds on every candidate line |
| Unlock.ExampleBlueprintLine | AsphaltDBParser.py:95-96 | "5/8/30" with "(43)" gives [5, 8, 30] and 43 |
| Unlock.ExampleKeyLine | AsphaltDBParser.py:95-96 | the key line "/40/45/60/70/85" with "(key + 300)" gives [40, 45, 60, 70, 85] and 300 |
| Stats.ParseHeader | AsphaltDBParser.py:146-160 | a header's kind is the kind its title names |
| Stats.HeaderComplete | AsphaltDBParser.py:147 | title, whitespace, `[`, digits, `]` is a header with the digits' value as rank |
| Stats.HeaderSound | AsphaltDBParser.py:147 | every header splits into title, whitespace, `[`, digits and `]`, and its rank is the digits' value |
| Stats.MetricSpanSpec | AsphaltDBParser.py:170-176 | the value taken is a maximal run of digits, dots and commas: the first one followed by "km/h" when there is one, else the first one on the line |
| Stats.RolesWellFormed | AsphaltDBParser.py:146-176 | every header line carries a titled kind, and every failed value is a number error |
| Stats.WindowSpec | AsphaltDBParser.py:163-177 | a block reads lines until it has four values or reaches a header or the end; no header lies inside that window |
| Stats.GatherWindow | AsphaltDBParser.py:162-180 | the block's value loop parses exactly the values in its window |
| Stats.StatBlock | AsphaltDBParser.py:136-191 | the returned index never moves back, and moves forward from a header |
| Stats.StatBlockWindow | AsphaltDBParser.py:136-191 | a block yields an entry exactly when its window holds four values; the entry's metrics are those values in order, and its kind, label and rank come from the header |
| Stats.ParseStatBlock | AsphaltDBParser.py:136-191 | the block loop computes the block function |
| Stats.Entries | AsphaltDBParser.py:294-305 | the walk from line i collects at most one entry per line left |
| Stats.CollectEntries | AsphaltDBParser.py:294-305 | the driver loop computes the stat-entry walk |
| Stats.EntriesTitled | AsphaltDBParser.py:294-305 | every collected entry's kind is the kind its label names |
| Stats.EntriesErrors | AsphaltDBParser.py:294-305 | the walk fails only with a number error |
| Stats.SkipNonHeaders | AsphaltDBParser.py:297-305 | lines that are not headers contribute no entry |
| Stats.FailedBlockSkip | AsphaltDBParser.py:297-305 | moving one line on after a block without an entry gives the same entries as jumping to the block's end |
| Aggregate.BestByStar | AsphaltDBParser.py:316-322 | the loop computes the kept-entry map |
| Aggregate.BestMap | AsphaltDBParser.py:316-322 | each kept entry is one of the entries, with as many stars as its key |
| Aggregate.BestMapDomain | AsphaltDBParser.py:316-322 | a star count has a kept entry exactly when some star entry has that many stars |
| Aggregate.BestMapKept | AsphaltDBParser.py:316-322 | the kept entry has the highest rank for its star count, and is the earliest of those with that rank |
| Aggregate.KeptUnique | AsphaltDBParser.py:316-322 | at most one entry meets the kept-entry condition |
| Aggregate.BuildStatList | AsphaltDBParser.py:324-378 | the loop computes the `stat` list from the first stock, max-w/o-epics and gold entries and the kept star entries |
| Aggregate.FullRowsSpec | AsphaltDBParser.py:339-352 | the full rows are ordered, cover each star count below the top that has a kept entry, and copy that entry |
| Aggregate.StatListStars | AsphaltDBParser.py:324-378 | every row of the `stat` list has a star count between one and the car's maximum |
| Aggregate.StatListSorted | AsphaltDBParser.py:324-378 | the `stat` list is ordered by star count, then stock, full, max w/o epics, gold |
| Aggregate.SortedRows | AsphaltDBParser.py:324-378 | in an ordered list star counts never decrease and no (star, type) pair repeats |
| Aggregate.StatListContents | AsphaltDBParser.py:324-378 | each row type appears exactly under its condition: the stock entry, kept entries below the top star, max w/o epics only with epics, gold |
| Upgrades.FirstWithPrefix | AsphaltDBParser.py:400 | the first line starting with the prefix |
| Upgrades.FirstLabelled | AsphaltDBParser.py:392 | the leftmost position where the label, optional whitespace, then a digit or comma match |
| Upgrades.LabelledNumberShape | AsphaltDBParser.py:392 | the captured group is a non-empty run of digits and commas |
| Upgrades.StepOf | AsphaltDBParser.py:386-396 | a line opens a block exactly when it is all stars and closes one exactly when it starts with "="; a closing total is non-negative, and a closing failure is a number error |
| Upgrades.StepOfNumber | AsphaltDBParser.py:390-395 | an "=" line whose number parses carries its truncated value |
| Upgrades.LadderErrors | AsphaltDBParser.py:384-397 | the ladder fails only with a number error |
| Upgrades.LadderQuiet | AsphaltDBParser.py:384-397 | lines that are neither star lines nor, inside a block, "=" lines change nothing |
| Upgrades.LadderOutsideBlock | AsphaltDBParser.py:389-396 | an "=" line outside a block adds nothing |
| Upgrades.LadderInBlock | AsphaltDBParser.py:385-397 | inside a block, every line before the next "=" line keeps the block open, star lines included |
| Upgrades.LadderCloseEmpty | AsphaltDBParser.py:390-396 | an "=" line without a number closes the block and adds nothing |
| Upgrades.LadderCloseNumber | AsphaltDBParser.py:390-396 | an "=" line whose number parses closes the block and appends the truncated number |
| Upgrades.LadderCloseError | AsphaltDBParser.py:394 | an "=" line whose number does not parse fails the ladder with that error |
| Upgrades.LadderBlock | AsphaltDBParser.py:384-397 | a star line, lines without "=", then an "=" line carrying n: the block appends exactly n and the walk resumes outside any block |
| Upgrades.UpgradeBlock | AsphaltDBParser.py:384-397 | the same block stated on the page's lines: it appends the truncation of the number that parses after "=" |
| Upgrades.LadderNoClose | AsphaltDBParser.py:384-397 | with no "=" line ahead nothing more is appended, so a block that never closes adds no total |
| Upgrades.UpgradeTotals | AsphaltDBParser.py:380-397 | the loop computes the ladder over the page's steps |
| Upgrades.LadderCount | AsphaltDBParser.py:384-397 | the ladder only appends; the totals it adds number at most the star lines still ahead, plus one for a block already open |
| Upgrades.LadderNonNegative | AsphaltDBParser.py:384-397 | every cumulative total is non-negative |
| Upgrades.UpgradeTotalsBounds | AsphaltDBParser.py:380-397 | there are at most as many totals as star lines, none is negative, and a failure is a number error |
| Upgrades.UpgradeAll | AsphaltDBParser.py:399-405 | no "Total:" line means no total; a total is non-negative; a failure is a number error |
| Upgrades.FirstWithPrefixAt | AsphaltDBParser.py:400 | a line with the prefix and none before it is the one next(...) picks |
| Upgrades.UpgradeAllFirst | AsphaltDBParser.py:400-405 | the first "Total:" line decides upgrade_all: no number after the label gives none, a number that parses gives its truncation, and one that does not parse fails with its error |
| Upgrades.PerStarDeltas | AsphaltDBParser.py:412-418 | the loop computes the differences of the cumulative totals |
| Page.ClassIndex | AsphaltDBParser.py:206-210 | the first line that is a single class letter D, C, B, A or S |
| Page.FindClass | AsphaltDBParser.py:206-210 | the loop finds the first class line |
| Page.StarLineIndex | AsphaltDBParser.py:221 | the first line made only of star glyphs |
| Page.FirstFuel | AsphaltDBParser.py:230 | the leftmost place where the fuel glyph, whitespace, digits, whitespace and "fuels" match |
| Page.FuelCountSpec | AsphaltDBParser.py:230-231 | no fuel count exactly when the pattern matches nowhere on the line; otherwise the count is the digit run of the first match, after the glyph and whitespace and followed by whitespace and "fuels" |
| Page.FuelCount | AsphaltDBParser.py:230-231 | a line gives no fuel count exactly when the fuel pattern matches at no position of it |
| Page.Fuel | AsphaltDBParser.py:228-233 | a fuel count comes from the first line starting with the fuel glyph; with no such line there is none |
| Page.FuelFirst | AsphaltDBParser.py:228-233 | when line k is the first to start with the fuel glyph, the page's fuel is exactly the count read from line k |
| Page.BpIndex | AsphaltDBParser.py:242-253 | the first candidate line from which a requirement list is extracted |
| Page.ScanBlueprints | AsphaltDBParser.py:238-253 | the loop computes the blueprint scan |
| Page.BpOf | AsphaltDBParser.py:238-264 | requirements come from a candidate line's cleaned text, and a key is used only when some line holds the key glyph |
| Page.BpFirstIndex | AsphaltDBParser.py:242-253 | the scan stops at the first line that is a candidate and yields requirements |
| Page.BpOfFirstHit | AsphaltDBParser.py:242-253 | the first hit decides the scan: its requirements and total, and the key exactly when the key glyph is on the hit line or the line after it |
| Page.BpOfFirstCandidate | AsphaltDBParser.py:242-253 | the first candidate line is the first hit, so bp_requirements, bp_all and the key come from it and the line after it |
| Page.BpOfSpec | AsphaltDBParser.py:238-264 | no requirements exactly when no line qualifies; otherwise at least two; with none, no total and no key |
| Page.ReadEpics | AsphaltDBParser.py:267-283 | the loop computes the epic amounts and price |
| Page.EpicsOf | AsphaltDBParser.py:267-292 | a positive per-stat amount is the first number on the line after an "Epics:" line |
| Page.EpicsOfFirst | AsphaltDBParser.py:270-283 | after the first "Epics:" line, the first number on the next line is the per-stat amount (zero without one), and a price that parses on the line after that is kept |
| Page.FirstNumberIn | AsphaltDBParser.py:274-276 | the first number on a line is absent exactly when it has no digit; otherwise it is the value of the maximal digit run that starts at the first digit |
| Page.EpicsDefaults | AsphaltDBParser.py:267-292 | without an "Epics:" line the amount and price are zero; a price that does not parse stays zero, and so does the price when the page ends less than two lines after the "Epics:" line |
| Page.ScansOfFit | AsphaltDBParser.py:196-405 | each scan of the page meets its own guarantees |
| Page.Assemble | AsphaltDBParser.py:285-291 | the four epic import-part amounts of a record are all the per-stat amount |
| Page.AssembleErrors | AsphaltDBParser.py:212-308 | the page fails with no class, no stars or no stats exactly when that check is the first to fail; any other failure is a number error |
| Page.AssembleRecord | AsphaltDBParser.py:196-425 | a record's class is a class letter and it has at least one star; bp_cumulative's differences are bp_requirements; unlock method is absent, key or bp as the scan says; `stat` is ordered; upgrade_per_star sums back to upgrade_cumulative, which is non-negative and no longer than the star lines |
| Page.Record | AsphaltDBParser.py:206-264 | a successful record's class is a class line, its max_star at least one, and it has an unlock method exactly when it has blueprint requirements |
| Page.AssembleStat | AsphaltDBParser.py:285-378 | a parsed record's stat list is the one built from the first stock, max-w/o-epics and gold entries, the kept star entries, max_star and whether the per-stat epic amount is positive |
| Page.PageRecordStat | AsphaltDBParser.py:285-378 | on a page's lines: the stat list is built from the entries the stat walk collects, the length of the first line of stars and the parts scan's per-stat amount |
| Page.AssembleFields | AsphaltDBParser.py:212-292 | a parsed record's class is the class line, its name the next line stripped, max_star the star line's length, and fuel, the blueprint figures, the epic price and the upgrade figures those of their scans |
| Page.PageRecordHead | AsphaltDBParser.py:206-225 | on a page's lines: the class is the first class line, the name the line after it stripped, and max_star the length of the first line of stars |
| Page.PageRecordScans | AsphaltDBParser.py:228-423 | on a page's lines: fuel, bp_requirements, bp_all, the epic price and upgrade_cumulative come from their scans, and the unlock method is "key" exactly when there are requirements and the blueprint scan saw the key glyph |
| Page.PageErrors | AsphaltDBParser.py:206-308 | the three errors of the page, stated on the page's lines |
| Page.ParseLines | AsphaltDBParser.py:200-425 | parse_mei_page after the lines are split computes the assembled scans |
| Page.ParsePage | AsphaltDBParser.py:196-425 | parse_mei_page computes the assembled scans of the page's normalised lines |

## Left out

- `fetch_mei_html` (lines 16-48): it is network and HTML extraction. The page text is a parameter of `Page.ParsePage`.
- `parse_mei_car`, `process_one_car` and the `__main__` block (lines 428-553): they cover fetching, threading, JSON output and the expansion of id ranges. None of this is page parsing.
- Floating point: `float(...)` values are kept exact as `Num.Dec(mantissa, scale)`. `int()` of such a value is `Numbers.Truncate`. Rounding of binary floats is not modelled.
- `\d` and `\s` are modelled as ASCII digits and Python's whitespace set. Unicode digits from other scripts are not modelled as digits.
- `str.splitlines` is modelled as a split at every line-break character, so `\r\n` gives an extra empty piece. Empty pieces are dropped with the other empty lines, so the page lines are unaffected.
- Exception messages are not modelled. A number error carries the text that did not parse, and the page's own errors carry the car id.
- The scans that the source interleaves (class, stars, fuel, blueprints, epics, stats, ladder, total) are each computed as a function of all the lines. Each scan reads every line and changes nothing, so the order cannot change the result. The errors keep the source's order.
- A stock row and a full row for the same star count could in principle both appear; nothing in the code prevents it. The model follows the code, and `Aggregate.StatListContents` states when each row appears.
- The cumulative upgrade totals are meant to increase from star to star, but the code does not check it. The model follows the code and proves only that they are non-negative and that there is at most one per star line.
