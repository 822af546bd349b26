/** The game table after loading: its columns, its rows, the two columns `main`
    adds to every row (`d1_bool` and `outcome`), and the filter that removes rows. */
module Games {
  import opened Strings

  /** A cell as the table library hands it over. Scores and numeric flags are integers. */
  datatype RawValue = Text(s: string) | Bool(b: bool) | Number(n: int) | Missing

  /** A column: its label as read, and whether its storage type is the generic
      "object" type (text, or a mix of kinds) rather than a boolean or numeric one. */
  datatype Column = Column(name: string, isText: bool)

  /** One input row. `team`, `teamScore` and `opponentScore` are the values under the
      `team`, `team_score` and `opponent_team_score` columns; `cells[i]` is the value
      under column `i` (a row shorter than the header reads as missing there). */
  datatype Row = Row(team: string, teamScore: int, opponentScore: int, cells: seq<RawValue>)

  datatype Sheet = Sheet(columns: seq<Column>, rows: seq<Row>)

  datatype Outcome = Win | Loss

  /** A row with the two derived columns added. */
  datatype Game = Game(team: string, teamScore: int, opponentScore: int, d1Bool: RawValue, outcome: Outcome)

  function CellAt(row: Row, column: nat): RawValue {
    if column < |row.cells| then row.cells[column] else Missing
  }

  /** The `d1_bool` value of one cell. In a text column the cell is lower-cased and
      mapped with `yes` to true and `no` to false; any other text, and any cell that is
      not text at all, becomes missing. That holds only when the string accessor accepts
      the column (see `StrAccessorRejects`); otherwise the run stops before this. In any
      other column the cell is kept as it is. */
  function CoerceFlag(isText: bool, v: RawValue): (r: RawValue)
    ensures !isText ==> r == v
    ensures isText ==> (r == Bool(true) <==> v.Text? && Lower(v.s) == "yes")
    ensures isText ==> (r == Bool(false) <==> v.Text? && Lower(v.s) == "no")
    ensures isText ==> (r.Missing? <==> !(v.Text? && Lower(v.s) in ["yes", "no"]))
  {
    if !isText then v
    else match v
      case Text(s) =>
        if Lower(s) == "yes" then Bool(true)
        else if Lower(s) == "no" then Bool(false)
        else Missing
      case _ => Missing
  }

  /** The comparison `d1_bool == True`: a boolean compares as itself, a number equals
      `True` only when it is 1, and text or a missing value never does. */
  function IsExactlyTrue(v: RawValue): (b: bool)
    ensures v.Bool? ==> (b <==> v.b)
    ensures v.Number? ==> (b <==> v.n == 1)
    ensures v.Text? || v.Missing? ==> !b
  {
    v == Bool(true) || v == Number(1)
  }

  predicate IsMissingOrBool(v: RawValue) {
    v.Missing? || v.Bool?
  }

  predicate IsMissingOrNumber(v: RawValue) {
    v.Missing? || v.Number?
  }

  /** Whether the string accessor of the table library refuses the text-typed column
      `column`: leaving missing cells aside, it holds at least one value, and its values
      are all booleans or all numbers. A column with any text, or with both booleans and
      numbers, is accepted. */
  predicate StrAccessorRejects(rows: seq<Row>, column: nat) {
    (exists i :: 0 <= i < |rows| && !CellAt(rows[i], column).Missing?) &&
    ((forall i :: 0 <= i < |rows| ==> IsMissingOrBool(CellAt(rows[i], column))) ||
     (forall i :: 0 <= i < |rows| ==> IsMissingOrNumber(CellAt(rows[i], column))))
  }

  /** The accessor refuses a column exactly when it holds no text, holds some value,
      and does not hold both a boolean and a number. */
  lemma StrAccessorRejectsIff(rows: seq<Row>, column: nat)
    ensures StrAccessorRejects(rows, column) <==>
      (forall i :: 0 <= i < |rows| ==> !CellAt(rows[i], column).Text?) &&
      (exists i :: 0 <= i < |rows| && !CellAt(rows[i], column).Missing?) &&
      !((exists i :: 0 <= i < |rows| && CellAt(rows[i], column).Bool?) &&
        (exists j :: 0 <= j < |rows| && CellAt(rows[j], column).Number?))
  {
  }

  /** The outcome rule: a win exactly when the team scored strictly more. */
  function OutcomeOf(teamScore: int, opponentScore: int): (o: Outcome)
    ensures o == Win <==> teamScore > opponentScore
    ensures o == Loss <==> teamScore <= opponentScore
  {
    if teamScore > opponentScore then Win else Loss
  }

  /** Adds `d1_bool` (from the cell in the tier column) and `outcome` to every row. */
  function Classify(rows: seq<Row>, tierIsText: bool, tier: nat): (games: seq<Game>)
    ensures |games| == |rows|
    ensures forall i :: 0 <= i < |rows| ==>
      games[i].team == rows[i].team &&
      games[i].teamScore == rows[i].teamScore &&
      games[i].opponentScore == rows[i].opponentScore
    ensures forall i :: 0 <= i < |rows| ==>
      (games[i].outcome == Win <==> rows[i].teamScore > rows[i].opponentScore)
    ensures forall i :: 0 <= i < |rows| ==> games[i].d1Bool == CoerceFlag(tierIsText, CellAt(rows[i], tier))
  {
    seq(|rows|, i requires 0 <= i < |rows| =>
      var row := rows[i];
      Game(row.team, row.teamScore, row.opponentScore,
           CoerceFlag(tierIsText, CellAt(row, tier)), OutcomeOf(row.teamScore, row.opponentScore)))
  }

  /** The filter as the code has it: a row goes when its flag is exactly true and it
      is a loss. A win never goes. */
  function Dropped(g: Game): (b: bool)
    ensures b ==> g.outcome == Loss && IsExactlyTrue(g.d1Bool)
    ensures g.outcome == Win ==> !b
  {
    IsExactlyTrue(g.d1Bool) && g.outcome == Loss
  }

  /** `a` is `b` with some elements left out, the rest in their order. */
  predicate Subsequence<T(==)>(a: seq<T>, b: seq<T>)
    decreases |b|
  {
    if a == [] then true
    else if b == [] then false
    else (a[0] == b[0] && Subsequence(a[1..], b[1..])) || Subsequence(a, b[1..])
  }

  /** The rows that survive the filter, in their original order: every row that is
      not dropped, each as many times as it occurs, and nothing else. */
  function Retained(games: seq<Game>): (kept: seq<Game>)
    ensures |kept| <= |games|
    ensures Subsequence(kept, games)
    ensures forall g :: multiset(kept)[g] == if Dropped(g) then 0 else multiset(games)[g]
  {
    if games == [] then []
    else
      var rest := Retained(games[1..]);
      assert games == [games[0]] + games[1..];
      if Dropped(games[0]) then rest
      else
        assert ([games[0]] + rest)[1..] == rest;
        [games[0]] + rest
  }

  /** Every win stays, whatever its flag; every row whose flag is not exactly true
      stays, whatever its outcome; a loss with a flag that is exactly true goes. */
  lemma RetainedRows(games: seq<Game>, g: Game)
    requires g in games
    ensures g.outcome == Win ==> g in Retained(games)
    ensures !IsExactlyTrue(g.d1Bool) ==> g in Retained(games)
    ensures g.outcome == Loss && IsExactlyTrue(g.d1Bool) ==> g !in Retained(games)
  {
    assert multiset(games)[g] > 0;
  }

  /** In a text tier column a row is dropped only when its cell reads `yes` in any
      case and the team lost; `no`, any other text and any non-text cell keep it. */
  lemma TextFlagDropsOnlyYesLosses(v: RawValue, outcome: Outcome)
    ensures IsExactlyTrue(CoerceFlag(true, v)) && outcome == Loss
        <==> v.Text? && Lower(v.s) == "yes" && outcome == Loss
  {
  }

  /** In a numeric tier column the flag counts only when the number is exactly 1,
      and in a boolean column only when it is true. */
  lemma NumericFlagCountsOnlyOne(v: RawValue)
    requires v.Number? || v.Bool?
    ensures IsExactlyTrue(CoerceFlag(false, v)) <==> v == Number(1) || v == Bool(true)
  {
  }
}
