/** The whole of `main` once the spreadsheet is loaded: normalise the labels, check
    the required columns, find the tier column, add `d1_bool` and `outcome`, filter,
    and group by team. `Analyze` states it as one function; `Run` follows the steps of
    `main` and is proved to compute the same result. */
module Analysis {
  import opened Wrappers
  import opened Strings
  import opened Schema
  import opened Games
  import opened Aggregate

  /** Why a run stops before writing anything: a required column is missing, no label
      marks a tier column, or the tier column is text-typed but the string accessor
      refuses its values (the script does not catch that error). */
  datatype RunError = MissingColumn(name: string) | NoTierColumn | NoStringValues

  function Labels(columns: seq<Column>): (names: seq<string>)
    ensures |names| == |columns|
  {
    seq(|columns|, i requires 0 <= i < |columns| => columns[i].name)
  }

  /** The sheet's labels after normalisation. */
  function CanonicalLabels(sheet: Sheet): (labels: seq<string>)
    ensures |labels| == |sheet.columns|
  {
    NormalizeLabels(Labels(sheet.columns))
  }

  /** The tier column is text-typed and the string accessor refuses it. */
  predicate TierValuesRefused(sheet: Sheet, tier: nat)
    requires tier < |sheet.columns|
  {
    sheet.columns[tier].isText && StrAccessorRejects(sheet.rows, tier)
  }

  /** The rows with `d1_bool` and `outcome` added, reading the flag from column `tier`. */
  function ClassifySheet(sheet: Sheet, tier: nat): seq<Game>
    requires tier < |sheet.columns|
  {
    Classify(sheet.rows, sheet.columns[tier].isText, tier)
  }

  /** The pipeline: the error of the first check that fails, or the per-team table. */
  function Analyze(sheet: Sheet): (r: Result<seq<TeamStats>, RunError>)
    ensures r.Err? && r.error.MissingColumn? <==> exists c :: c in Required && c !in CanonicalLabels(sheet)
    ensures r.Err? && r.error.MissingColumn? ==> r.error.name == FirstMissing(CanonicalLabels(sheet)).value
    ensures r == Err(NoTierColumn) <==>
      (forall c :: c in Required ==> c in CanonicalLabels(sheet)) &&
      (forall j :: 0 <= j < |sheet.columns| ==> !IsTierLabel(CanonicalLabels(sheet)[j]))
    ensures r == Err(NoStringValues) <==>
      (forall c :: c in Required ==> c in CanonicalLabels(sheet)) &&
      TierColumn(CanonicalLabels(sheet)).Some? &&
      TierValuesRefused(sheet, TierColumn(CanonicalLabels(sheet)).value)
    ensures r.Ok? ==> TierColumn(CanonicalLabels(sheet)).Some?
    ensures r.Ok? ==> !TierValuesRefused(sheet, TierColumn(CanonicalLabels(sheet)).value)
    ensures r.Ok? ==> r.value == GroupByTeam(Retained(ClassifySheet(sheet, TierColumn(CanonicalLabels(sheet)).value)))
  {
    var labels := CanonicalLabels(sheet);
    match FirstMissing(labels)
    case Some(c) => Err(MissingColumn(c))
    case None =>
      match TierColumn(labels)
      case None => Err(NoTierColumn)
      case Some(k) =>
        if TierValuesRefused(sheet, k) then Err(NoStringValues)
        else Ok(GroupByTeam(Retained(ClassifySheet(sheet, k))))
  }

  /** `main` step by step: the two checks as loops with an early exit, the string
      accessor's refusal, then the derived columns, the filter and the group-by. */
  method Run(sheet: Sheet) returns (result: Result<seq<TeamStats>, RunError>)
    ensures result == Analyze(sheet)
  {
    var labels := NormalizeLabels(Labels(sheet.columns));
    var missing := FindMissingColumn(labels);
    if missing.Some? {
      return Err(MissingColumn(missing.value));
    }
    var tier := FindTierColumn(labels);
    if tier.None? {
      return Err(NoTierColumn);
    }
    if sheet.columns[tier.value].isText && StrAccessorRejects(sheet.rows, tier.value) {
      return Err(NoStringValues);
    }
    var games := Classify(sheet.rows, sheet.columns[tier.value].isText, tier.value);
    var filtered := Retained(games);
    result := Ok(GroupByTeam(filtered));
  }

  /** On success, each team's row holds the totals of exactly its retained rows, the
      grand totals are those of all retained rows, and no team is left out. */
  lemma AnalyzeTotals(sheet: Sheet, k: nat, team: string)
    requires Analyze(sheet).Ok?
    requires TierColumn(CanonicalLabels(sheet)) == Some(k)
    ensures k < |sheet.columns|
    ensures var stats := Analyze(sheet).value;
      var kept := Retained(ClassifySheet(sheet, k));
      Lookup(stats, team) == Tally(OfTeam(kept, team)) &&
      Teams(stats) == TeamsOf(kept) &&
      Grand(stats) == Tally(kept) &&
      StrictlyAscending(stats)
  {
  }
}
