# Team results analysis, modelled in Dafny

`feb22.py` reads a spreadsheet of game results and builds one table per team. The
spreadsheet has one row per game, seen from one team's side. The script:

- normalises the column labels (strip, then lower-case);
- checks that `team`, `team_score` and `opponent_team_score` are present;
- finds the tier column: the first label that contains `d1`, `division` or `tier`;
- derives a `d1_bool` flag from that column;
- derives an `outcome` (`win` or `loss`) from the two scores;
- drops some rows;
- groups the rest by team into points scored, points allowed, wins and losses.

This project models that pipeline after the spreadsheet is loaded, up to the table
that is printed and saved. The files, in dependency order:

- `wrappers.dfy`: the `Option` and `Result` types.
- `strings.dfy`: `str.strip()` and `str.lower()` over ASCII, substring search, and
  Python's string order.
- `schema.dfy`: label normalisation, the required-column check and the tier-column
  search.
  - Each check is a specification function.
  - Each check is also a `while`-loop method, shaped like the loop in the script and
    proved equal to its function.
- `games.dfy`: the loaded table (columns with a text/non-text storage tag, rows, raw
  cell values), the `d1_bool` coercion, the outcome rule and the row filter.
- `aggregate.dfy`: the group-by, built as an insertion fold into a table sorted by
  team name. It is proved against independent sums and counts over each team's rows.
- `analysis.dfy`: the whole run.
  - `Analyze` is the run as one function, with its three error exits.
  - `Run` takes the script's steps in order and is proved to return `Analyze`'s result.
- `scenarios.dfy`: a three-game example taken through each stage, and the three error
  exits.

### Modelling notes

- **The filter follows the code.**
  - The comment above line 46 says the filter removes wins against the tier.
  - The expression on line 46 removes rows whose flag equals `True` and whose outcome
    is `loss`.
  - The model follows the expression: `Games.Dropped` is "flag exactly true and a
    loss".
  - Consequently, flagged wins are kept. `Scenarios.ScenarioTotals` shows this: TeamX
    keeps its 10–7 win against a tier opponent, and its 3–20 loss against one is dropped.
  - A description of the intended behaviour would instead keep the loss and drop the
    win.
- **The flag test is exact equality.**
  - `d1_bool == True` holds only for a boolean true or for a number equal to 1. Another
    non-zero number does not count.
  - A missing value never counts, so rows with an unreadable flag are always kept.
- **Scores and team names are typed fields of a row.** A row also carries one raw cell
  per column, and the tier flag is read from the cell at the chosen column's position.
- **The string accessor can stop the run.**
  - Line 38 applies the table library's string accessor to a text-typed (`object`)
    tier column.
  - The accessor infers what kind of values the column holds and raises an error that
    the script does not catch when they are not strings.
  - Leaving missing cells aside, the model takes that to happen when the column holds
    at least one value and all its values are booleans, or all are numbers.
  - For example, a column of Excel TRUE/FALSE cells with a blank cell is refused.
  - `Analyze` and `Run` end with the error `NoStringValues` in that case.
- **The data frame is not an object here.** The script's data frame is a local
  variable of `main`. `Run` therefore uses local values for the normalised labels,
  the enriched rows and the filtered rows, rather than a class.

## Model

| member | source | states |
|---|---|---|
| Strings.StripLeadingSpec | feb22.py:16 | Removing leading whitespace leaves a suffix that does not start with whitespace, and everything cut off is whitespace |
| Strings.StripTrailingSpec | feb22.py:16 | Removing trailing whitespace leaves a prefix that does not end with whitespace, and everything cut off is whitespace |
| Strings.Strip | feb22.py:16 | A stripped label has no whitespace at either end and is never longer than the original |
| Strings.StripRemovesOnlySpace | feb22.py:16 | The stripped label is a contiguous middle part of the original, and only whitespace lies before and after it |
| Strings.StripOfStripped | feb22.py:16 | Stripping a label with no whitespace at either end leaves it unchanged |
| Strings.LowerSpec | feb22.py:16 | Lower-casing keeps the length, leaves no upper-case letter, keeps every other character, and maps each upper-case letter to its lower-case letter |
| Strings.Lower | feb22.py:16 | Lower-casing keeps the length and leaves no upper-case letter |
| Strings.LowerOfLower | feb22.py:16 | Lower-casing a string that has no upper-case letter leaves it unchanged |
| Strings.LowerKeepsStripped | feb22.py:16 | Lower-casing never puts whitespace at either end of a stripped string |
| Strings.NormalizeStripped | feb22.py:16 | A label with no whitespace at either end is normalised by lower-casing alone |
| Strings.Normalize | feb22.py:16 | A normalised label is never longer than the original, has no whitespace at either end and has no upper-case letter |
| Strings.NormalizeIdempotent | feb22.py:16 | Normalising a label twice gives the same label as normalising it once |
| Strings.NormalizeTeamSpellings | feb22.py:16 | `" Team "`, `"TEAM"` and `"team"` all normalise to `team` |
| Strings.Contains | feb22.py:28 | Python's substring test: the empty string occurs in every label, and a keyword longer than a label does not occur in it |
| Strings.LacksCharacter | feb22.py:28 | A label that lacks one character of a keyword does not contain that keyword |
| Strings.Below | feb22.py:49 | The order of group keys: no name is below itself, and a proper prefix is below the longer name |
| Strings.BelowIrreflexive | feb22.py:49 | No team name sorts before itself |
| Strings.BelowTransitive | feb22.py:49 | The order in which group keys come out is transitive |
| Strings.BelowTotal | feb22.py:49 | Any two different team names are ordered one way or the other |
| Schema.NormalizeLabels | feb22.py:16 | The relabelling gives one label per column, each with no whitespace at either end and no upper-case letter |
| Schema.NormalizeLabelsIdempotent | feb22.py:16 | Normalising the relabelled columns again changes none of them |
| Schema.FirstAbsent | feb22.py:19-23 | Returns the position of the first required name that is not a label: all earlier ones are labels, and that one is not |
| Schema.FirstMissing | feb22.py:19-23 | Reports nothing iff all three required names are labels. Otherwise it reports a required name that is absent, checked in the order team, team_score, opponent_team_score: `team_score` is reported only when `team` is present, and `opponent_team_score` only when both others are |
| Schema.FindMissingColumn | feb22.py:19-23 | The check loop, with its early exit, reports exactly what `FirstMissing` specifies |
| Schema.NoTierLetters | feb22.py:28 | A label with neither `d` nor `i` contains none of `d1`, `division` and `tier` |
| Schema.IsTierLabel | feb22.py:28-32 | A label that contains a keyword has at least two characters, so the emptiness test after the search fails exactly when nothing matched |
| Schema.TierFrom | feb22.py:26-30 | Finds the first position at or after the start that holds a tier label: none before it does, and it does if it is in range |
| Schema.TierColumn | feb22.py:26-34 | When a column is chosen, its label contains a keyword and no earlier label does. No column is chosen iff no label contains a keyword |
| Schema.FindTierColumn | feb22.py:26-30 | The search loop, with its `break`, returns exactly what `TierColumn` specifies |
| Games.CoerceFlag | feb22.py:37-40 | In a non-text column the flag is the cell as is. In a text column that the string accessor accepts, the flag is true iff the cell is text reading `yes` in any case, false iff it reads `no`, and missing otherwise (non-text cells included) |
| Games.StrAccessorRejectsIff | feb22.py:38 | The string accessor refuses a text-typed column iff it holds no text, holds some value, and does not hold both a boolean and a number |
| Games.IsExactlyTrue | feb22.py:46 | `== True` holds for a boolean iff it is true and for a number iff it is 1, and never for text or a missing value |
| Games.OutcomeOf | feb22.py:43 | A win iff the team scored strictly more, a loss iff it did not, so ties are losses |
| Games.Classify | feb22.py:37-43 | Every row keeps its team and scores. It gains an outcome that is a win iff team_score > opponent_team_score, and the flag coerced from its cell in the tier column |
| Games.Dropped | feb22.py:46 | A row removed by the mask is a loss whose flag is exactly true; a win is never removed |
| Games.Retained | feb22.py:46 | The kept rows are a subsequence of the input in their original order: a row that is a loss with a flag exactly true occurs 0 times, and every other row occurs as often as in the input |
| Games.RetainedRows | feb22.py:46 | Every win is kept, every row whose flag is not exactly true is kept, and every loss with a flag exactly true is removed |
| Games.TextFlagDropsOnlyYesLosses | feb22.py:37-46 | In a text tier column a row is removed iff its cell reads `yes` in any case and it is a loss |
| Games.NumericFlagCountsOnlyOne | feb22.py:40-46 | In a numeric or boolean tier column a flag counts iff it is the number 1 or the boolean true |
| Aggregate.UpsertTeams | feb22.py:49-54 | Counting a row into the table adds its team to the table's teams and nothing else |
| Aggregate.Upsert | feb22.py:49-54 | Counting a row into the table adds at most one entry and leaves the table non-empty |
| Aggregate.UpsertAscending | feb22.py:49-54 | Counting a row into a table keeps the team names strictly ascending |
| Aggregate.HeadBelowTail | feb22.py:49-54 | When the row goes after the first entry of an ascending table, that entry stays below every later one |
| Aggregate.LookupAbsent | feb22.py:49-54 | A team with no entry has zero totals |
| Aggregate.BelowFirstIsAbsent | feb22.py:49-54 | A name below the first name of an ascending table has no entry in it |
| Aggregate.UpsertLookup | feb22.py:49-54 | Counting a row credits its score, allowed points and outcome to its own team and changes no other team's totals |
| Aggregate.UpsertGrand | feb22.py:49-54 | Counting a row adds exactly that row to the grand totals |
| Aggregate.TallyCons | feb22.py:50-53 | The four totals of a group with one more row are the old totals credited with that row |
| Aggregate.GroupByTeam | feb22.py:49-54 | One output row per distinct team among the kept rows, in strictly ascending name order. Each row's totals are the sums and counts over exactly that team's rows, and the grand totals equal those of all kept rows |
| Aggregate.LookupAt | feb22.py:49-54 | In the output table each row is the only one for its team, and looking the team up finds it |
| Aggregate.WinsPlusLosses | feb22.py:52-53 | Every row is a win or a loss, so the win count plus the loss count of a group equals its number of rows |
| Aggregate.Tally | feb22.py:50-53 | The four totals of a group: its wins and losses together count every row of the group |
| Aggregate.GroupByTeamRow | feb22.py:49-54 | Every output row names a team that occurs in the input and in no other output row. Its points are the sums over that team's rows, and its wins plus losses equal the number of those rows |
| Analysis.Analyze | feb22.py:16-54 | The run fails with a missing column iff some required name is absent after normalisation, and names the first one. It fails for want of a tier column iff all required names are present and no label contains a keyword. It fails with `NoStringValues` iff the checks pass, a tier column is found, and the string accessor refuses that column. Otherwise the result is the group-by of the retained, classified rows |
| Analysis.Run | feb22.py:16-54 | The step-by-step run, with both loops and early exits, returns exactly what `Analyze` specifies |
| Analysis.AnalyzeTotals | feb22.py:46-54 | On success the output is strictly ascending, has exactly the teams of the kept rows, gives each team the totals of its kept rows, and has grand totals equal to those of all kept rows |
| Scenarios.ScoreSpellings | feb22.py:16 | `TEAM_SCORE` normalises to `team_score`, and `opponent_team_score` stays as it is |
| Scenarios.ScenarioLabels | feb22.py:16 | The labels `" Team "`, `"TEAM_SCORE"`, `"opponent_team_score"` and `"Division"` normalise to the three required names and `division` |
| Scenarios.ScenarioTier | feb22.py:26-30 | With those labels the tier column is the fourth, `division` |
| Scenarios.ScenarioClassify | feb22.py:37-43 | The sheet's text tier column is accepted by the string accessor. Its cells `yes` and `YES` become true and `no` becomes false; 10–7 and 14–10 are wins and 3–20 is a loss |
| Scenarios.ScenarioBooleanTier | feb22.py:37-38 | A text-typed tier column holding true, false and a blank is refused by the string accessor |
| Scenarios.ScenarioMixedTier | feb22.py:37-38 | A text-typed tier column mixing a boolean and a number is accepted, and both cells become missing flags |
| Scenarios.ScenarioFilter | feb22.py:46 | Of the three games, TeamX's flagged loss is removed and both wins are kept |
| Scenarios.ScenarioTotals | feb22.py:49-54 | The table is TeamX (10, 7, 1 win, 0 losses) then TeamY (14, 10, 1 win, 0 losses) |
| Scenarios.ScenarioMissingScore | feb22.py:19-23 | With only `team` and `division`, the reported missing column is `team_score`, though `opponent_team_score` is missing too |
| Scenarios.ScenarioNoTier | feb22.py:26-34 | With the required labels plus `conference`, no tier column is found |

## Left out

- **Loading the spreadsheet** (lines 5-9). The loaded table is the input of `Analyze` and `Run`; the reading error path and its message are not modelled.
- **Console output** (lines 12-13, 22, 33, 57-58, 62). Each error exit is a `RunError` value instead of a printed message (or, for `NoStringValues`, an uncaught exception).
- **Writing the CSV file** (line 61). The model ends at the table that would be written.
- **Storage type inference.** The table library infers a storage type for each column; the model reduces it to a per-column tag (text or not) that is given with the sheet.
- Games.StrAccessorRejectsIff: the string accessor's inference is modelled for text, boolean, integer and missing cells only. A text-typed column whose cells are all missing is taken as accepted. Dates and other kinds of value are not modelled.
- **Floating-point values.**
  - Scores are integers, and numeric flags are integers.
  - Floats, NaN scores and the float flag `1.0` are not modelled.
  - A NaN score would compare false and make the row a loss.
- **Unbounded integers.** Sums are unbounded, so 64-bit overflow in the table library's sums is not modelled.
- **Whitespace and case outside ASCII.** `Strings.Strip` and `Strings.Lower` cover ASCII only. Python's `str.strip()` and `str.lower()` also handle non-ASCII whitespace and letters.
- **Labels and team values that are not strings.**
  - Column labels are strings, so numeric headers are not modelled.
  - Team names are strings, so missing team names, which the group-by would discard, are not modelled, and neither are keys of mixed type.
- **Duplicate labels after normalisation.** The model reads the flag from the first matching column and takes the team and scores from each row's own fields, so it returns `Ok` in every case below. The script behaves differently:
  - A duplicated tier label fails at line 37: the lookup returns a table, which has no single `dtype`.
  - A duplicated `team_score` or `opponent_team_score` fails at line 43: the comparison gives a series, and `if` on a series raises an error.
  - A duplicated `team` fails at line 49: the group-by refuses a key that is not one-dimensional.
  - A duplicated label that none of these lines reads does not fail at all.
- **One-piece scenario.** The example is stated stage by stage, not as one lemma about `Analyze` on the whole sheet.
- **In-place updates.** The data frame's relabelled columns and its two added columns are local values in `Run`, so aliasing of the frame is not captured.
