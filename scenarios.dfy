/** A worked example run through the model of `main`. */
module Scenarios {
  import opened Wrappers
  import opened Strings
  import opened Schema
  import opened Games
  import opened Aggregate
  import opened Analysis

  /** Three games, the tier column labelled `Division`: TeamX beats a tier opponent
      10-7 and loses 3-20 to one, TeamY beats a non-tier opponent 14-10. The code drops
      the tier loss and keeps the tier win. */
  function ScenarioSheet(): Sheet {
    Sheet(
      [Column(" Team ", true), Column("TEAM_SCORE", false), Column("opponent_team_score", false), Column("Division", true)],
      [Row("TeamX", 10, 7, [Text("TeamX"), Number(10), Number(7), Text("yes")]),
       Row("TeamX", 3, 20, [Text("TeamX"), Number(3), Number(20), Text("YES")]),
       Row("TeamY", 14, 10, [Text("TeamY"), Number(14), Number(10), Text("no")])])
  }

  /** Upper-case and already canonical spellings of the score labels. */
  lemma ScoreSpellings(teamScore: string, opponentScore: string)
    requires teamScore == "TEAM_SCORE" && opponentScore == "opponent_team_score"
    ensures Normalize(teamScore) == "team_score" && Normalize(opponentScore) == opponentScore
  {
    NormalizeStripped(teamScore);
    assert Lower(teamScore) == "team_score";
    NormalizeStripped(opponentScore);
    LowerOfLower(opponentScore);
  }

  /** The scenario's labels normalise to the three required names and `division`. */
  lemma ScenarioLabels(names: seq<string>)
    requires names == [" Team ", "TEAM_SCORE", "opponent_team_score", "Division"]
    ensures NormalizeLabels(names) == ["team", "team_score", "opponent_team_score", "division"]
  {
    NormalizeTeamSpellings(names[0]);
    ScoreSpellings(names[1], names[2]);
    NormalizeStripped(names[3]);
    assert Lower(names[3]) == "division";
  }

  /** The scenario's tier column is `division`, the fourth: none of the required
      labels has a `d` or an `i`, so none contains a keyword. */
  lemma ScenarioTier(labels: seq<string>)
    requires labels == ["team", "team_score", "opponent_team_score", "division"]
    ensures TierColumn(labels) == Some(3)
  {
    NoTierLetters("team");
    NoTierLetters("team_score");
    NoTierLetters("opponent_team_score");
    assert IsTierLabel("division") by {
      assert OccursAt("division", "division", 0);
    }
    assert TierFrom(labels, 3) == 3;
    assert TierFrom(labels, 2) == 3;
    assert TierFrom(labels, 1) == 3;
  }

  /** The text tier column holds strings, so the string accessor accepts it; `yes` in
      any case flags the row, `no` does not; the outcomes follow the scores. */
  lemma ScenarioClassify(sheet: Sheet)
    requires sheet == ScenarioSheet()
    ensures !TierValuesRefused(sheet, 3)
    ensures ClassifySheet(sheet, 3) == [
      Game("TeamX", 10, 7, Bool(true), Win),
      Game("TeamX", 3, 20, Bool(true), Loss),
      Game("TeamY", 14, 10, Bool(false), Win)]
  {
    assert !IsMissingOrBool(CellAt(sheet.rows[0], 3)) && !IsMissingOrNumber(CellAt(sheet.rows[0], 3));
    assert Lower("yes") == "yes" && Lower("YES") == "yes" && Lower("no") == "no";
  }

  /** A text-typed tier column that holds only booleans and a blank is refused by the
      string accessor, so the run stops there. */
  lemma ScenarioBooleanTier(rows: seq<Row>)
    requires rows == [
      Row("TeamX", 10, 7, [Text("TeamX"), Number(10), Number(7), Bool(true)]),
      Row("TeamX", 3, 20, [Text("TeamX"), Number(3), Number(20), Bool(false)]),
      Row("TeamY", 14, 10, [Text("TeamY"), Number(14), Number(10), Missing])]
    ensures StrAccessorRejects(rows, 3)
  {
    assert !CellAt(rows[0], 3).Missing?;
  }

  /** A column mixing a boolean and a number is accepted; both cells become missing. */
  lemma ScenarioMixedTier(rows: seq<Row>)
    requires rows == [
      Row("TeamX", 10, 7, [Text("TeamX"), Number(10), Number(7), Bool(true)]),
      Row("TeamY", 14, 10, [Text("TeamY"), Number(14), Number(10), Number(1)])]
    ensures !StrAccessorRejects(rows, 3)
    ensures CoerceFlag(true, CellAt(rows[0], 3)) == Missing && CoerceFlag(true, CellAt(rows[1], 3)) == Missing
  {
    assert !IsMissingOrNumber(CellAt(rows[0], 3)) && !IsMissingOrBool(CellAt(rows[1], 3));
  }

  /** The filter as written keeps TeamX's win against a tier opponent and drops its
      loss against one. */
  lemma ScenarioFilter(games: seq<Game>)
    requires games == [
      Game("TeamX", 10, 7, Bool(true), Win),
      Game("TeamX", 3, 20, Bool(true), Loss),
      Game("TeamY", 14, 10, Bool(false), Win)]
    ensures Retained(games) == [games[0], games[2]]
  {
    assert games[1..] == [games[1], games[2]];
    assert games[1..][1..] == [games[2]];
  }

  /** TeamX ends with 10 scored, 7 allowed and one win, TeamY with 14, 10 and one win. */
  lemma ScenarioTotals(kept: seq<Game>)
    requires kept == [Game("TeamX", 10, 7, Bool(true), Win), Game("TeamY", 14, 10, Bool(false), Win)]
    ensures GroupByTeam(kept) ==
      [TeamStats("TeamX", Totals(10, 7, 1, 0)), TeamStats("TeamY", Totals(14, 10, 1, 0))]
  {
    assert Below("TeamX", "TeamY") by {
      assert "TeamX"[1..] == "eamX" && "TeamY"[1..] == "eamY";
      assert "eamX"[1..] == "amX" && "eamY"[1..] == "amY";
      assert "amX"[1..] == "mX" && "amY"[1..] == "mY";
      assert "mX"[1..] == "X" && "mY"[1..] == "Y";
    }
    assert GroupByTeam(kept[1..]) == [TeamStats("TeamY", Totals(14, 10, 1, 0))];
  }

  /** Without a `team_score` label the run reports `team_score`, even when
      `opponent_team_score` is missing too. */
  lemma ScenarioMissingScore(labels: seq<string>)
    requires labels == ["team", "division"]
    ensures FirstMissing(labels) == Some("team_score")
  {
    assert Required[1] !in labels;
    assert Required[0] in labels;
  }

  /** Without a label that contains a keyword there is no tier column. */
  lemma ScenarioNoTier(labels: seq<string>)
    requires labels == ["team", "team_score", "opponent_team_score", "conference"]
    ensures TierColumn(labels) == None
  {
    NoTierLetters("team");
    NoTierLetters("team_score");
    NoTierLetters("opponent_team_score");
    NoTierLetters("conference");
  }
}
