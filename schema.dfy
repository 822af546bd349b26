/** The checks `main` runs on the column labels before it touches any row:
    canonical labels, the three required columns (in a fixed order), and the search
    for the column that says whether the opponent belongs to the top tier. */
module Schema {
  import opened Strings
  import opened Wrappers

  /** The required columns, in the order they are checked. */
  const Required: seq<string> := ["team", "team_score", "opponent_team_score"]

  /** Every label stripped and lower-cased, in column order: one canonical label per column. */
  function NormalizeLabels(labels: seq<string>): (r: seq<string>)
    ensures |r| == |labels|
    ensures forall i :: 0 <= i < |r| ==> IsCanonical(r[i])
  {
    seq(|labels|, i requires 0 <= i < |labels| => Normalize(labels[i]))
  }

  /** Normalising the labels a second time changes none of them. */
  lemma NormalizeLabelsIdempotent(labels: seq<string>)
    ensures NormalizeLabels(NormalizeLabels(labels)) == NormalizeLabels(labels)
  {
    forall i | 0 <= i < |labels|
      ensures NormalizeLabels(NormalizeLabels(labels))[i] == NormalizeLabels(labels)[i]
    {
      NormalizeIdempotent(labels[i]);
    }
  }

  /** The position, in `required`, of the first name that is not a label; `|required|`
      when all are present. Everything before it is present. */
  function FirstAbsent(labels: seq<string>, required: seq<string>): (k: nat)
    ensures k <= |required|
    ensures forall j :: 0 <= j < k ==> required[j] in labels
    ensures k < |required| ==> required[k] !in labels
  {
    if required == [] then 0
    else if required[0] !in labels then 0
    else 1 + FirstAbsent(labels, required[1..])
  }

  /** The required column reported as missing, if any: the first of `team`,
      `team_score`, `opponent_team_score` that is not among the labels. */
  function FirstMissing(labels: seq<string>): (r: Option<string>)
    ensures r.None? <==> forall c :: c in Required ==> c in labels
    ensures r.Some? ==> r.value in Required && r.value !in labels
    ensures r == Some("team_score") ==> "team" in labels
    ensures r == Some("opponent_team_score") ==> "team" in labels && "team_score" in labels
  {
    var k := FirstAbsent(labels, Required);
    assert Required[0] != Required[2] && Required[1] != Required[2];
    if k < |Required| then Some(Required[k]) else None
  }

  /** The check loop of `main`: walks the required columns in order and stops at
      the first one that is missing. */
  method FindMissingColumn(labels: seq<string>) returns (missing: Option<string>)
    ensures missing == FirstMissing(labels)
  {
    var i := 0;
    while i < |Required|
      invariant 0 <= i <= |Required|
      invariant forall j :: 0 <= j < i ==> Required[j] in labels
    {
      if Required[i] !in labels {
        return Some(Required[i]);
      }
      i := i + 1;
    }
    return None;
  }

  /** A label that marks the tier column: it contains `d1`, `division` or `tier`. Such a
      label is never empty, so the test `if not d1_column_name` after the search fails
      exactly when no label matched. */
  function IsTierLabel(name: string): (b: bool)
    ensures b ==> |name| >= 2
  {
    Contains(name, "d1") || Contains(name, "division") || Contains(name, "tier")
  }

  /** A label with neither a `d` nor an `i` contains none of the three keywords. */
  lemma NoTierLetters(name: string)
    requires 'd' !in name && 'i' !in name
    ensures !IsTierLabel(name)
  {
    LacksCharacter(name, "d1", 'd');
    LacksCharacter(name, "division", 'd');
    LacksCharacter(name, "tier", 'i');
  }

  /** The first position at or after `i` whose label is a tier label; `|labels|` if none. */
  function TierFrom(labels: seq<string>, i: nat): (k: nat)
    requires i <= |labels|
    ensures i <= k <= |labels|
    ensures forall j :: i <= j < k ==> !IsTierLabel(labels[j])
    ensures k < |labels| ==> IsTierLabel(labels[k])
    decreases |labels| - i
  {
    if i == |labels| then i
    else if IsTierLabel(labels[i]) then i
    else TierFrom(labels, i + 1)
  }

  /** The tier column: the first label, in column order, that is a tier label. */
  function TierColumn(labels: seq<string>): (r: Option<nat>)
    ensures r.Some? ==> r.value < |labels| && IsTierLabel(labels[r.value])
    ensures r.Some? ==> forall j :: 0 <= j < r.value ==> !IsTierLabel(labels[j])
    ensures r.None? <==> forall j :: 0 <= j < |labels| ==> !IsTierLabel(labels[j])
  {
    var k := TierFrom(labels, 0);
    if k < |labels| then Some(k) else None
  }

  /** The search loop of `main`: scans the labels in order and breaks at the first
      tier label. */
  method FindTierColumn(labels: seq<string>) returns (column: Option<nat>)
    ensures column == TierColumn(labels)
  {
    column := None;
    var i := 0;
    while i < |labels|
      invariant 0 <= i <= |labels|
      invariant forall j :: 0 <= j < i ==> !IsTierLabel(labels[j])
      invariant column == None
    {
      if IsTierLabel(labels[i]) {
        column := Some(i);
        break;
      }
      i := i + 1;
    }
  }
}
