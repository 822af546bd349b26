/** The group-by at the end of `main`: the retained rows are grouped by exact team
    name, and each group gives the points scored, the points allowed, the wins and
    the losses; groups come out in ascending order of team name. */
module Aggregate {
  import opened Strings
  import opened Games

  datatype Totals = Totals(pointsScored: int, pointsAllowed: int, wins: nat, losses: nat)

  /** One output row: `team,total_points_scored,total_points_allowed,total_wins,total_losses`. */
  datatype TeamStats = TeamStats(team: string, totals: Totals)

  const Zero := Totals(0, 0, 0, 0)

  // Reference definitions: each output column as its own sum or count over a group.

  function SumScored(games: seq<Game>): int {
    if games == [] then 0 else games[0].teamScore + SumScored(games[1..])
  }

  function SumAllowed(games: seq<Game>): int {
    if games == [] then 0 else games[0].opponentScore + SumAllowed(games[1..])
  }

  function CountWins(games: seq<Game>): nat {
    if games == [] then 0 else (if games[0].outcome == Win then 1 else 0) + CountWins(games[1..])
  }

  function CountLosses(games: seq<Game>): nat {
    if games == [] then 0 else (if games[0].outcome == Loss then 1 else 0) + CountLosses(games[1..])
  }

  /** Every row is a win or a loss, so the two counts add up to the number of rows. */
  lemma {:induction false} WinsPlusLosses(games: seq<Game>)
    ensures CountWins(games) + CountLosses(games) == |games|
  {
    if games != [] {
      WinsPlusLosses(games[1..]);
    }
  }

  /** The four totals of a group of rows; its wins and losses together count every row. */
  function Tally(games: seq<Game>): (t: Totals)
    ensures t.wins + t.losses == |games|
  {
    WinsPlusLosses(games);
    Totals(SumScored(games), SumAllowed(games), CountWins(games), CountLosses(games))
  }

  /** The rows of one team, in order. */
  function OfTeam(games: seq<Game>, team: string): seq<Game> {
    if games == [] then []
    else (if games[0].team == team then [games[0]] else []) + OfTeam(games[1..], team)
  }

  /** The set of team names among some rows. */
  function TeamsOf(games: seq<Game>): set<string> {
    set g | g in games :: g.team
  }

  /** The set of team names among some output rows. */
  function Teams(stats: seq<TeamStats>): set<string> {
    set s | s in stats :: s.team
  }

  predicate StrictlyAscending(stats: seq<TeamStats>) {
    forall i, j :: 0 <= i < j < |stats| ==> Below(stats[i].team, stats[j].team)
  }

  /** The totals of the first output row for `team`; zero when there is none. */
  function Lookup(stats: seq<TeamStats>, team: string): Totals {
    if stats == [] then Zero
    else if stats[0].team == team then stats[0].totals
    else Lookup(stats[1..], team)
  }

  /** The totals once one more row is counted. */
  function Credit(t: Totals, g: Game): Totals {
    Totals(t.pointsScored + g.teamScore, t.pointsAllowed + g.opponentScore,
           t.wins + (if g.outcome == Win then 1 else 0),
           t.losses + (if g.outcome == Loss then 1 else 0))
  }

  /** The sum of the totals of all output rows. */
  function Grand(stats: seq<TeamStats>): Totals {
    if stats == [] then Zero
    else
      var rest := Grand(stats[1..]);
      var t := stats[0].totals;
      Totals(t.pointsScored + rest.pointsScored, t.pointsAllowed + rest.pointsAllowed,
             t.wins + rest.wins, t.losses + rest.losses)
  }

  /** Counts one row into a sorted table: into its team's entry when there is one,
      otherwise into a new entry at the place that keeps the names in order. The table
      grows by at most one entry, and is never empty afterwards. */
  function Upsert(stats: seq<TeamStats>, g: Game): (r: seq<TeamStats>)
    ensures |stats| <= |r| <= |stats| + 1
    ensures r != []
  {
    if stats == [] then [TeamStats(g.team, Credit(Zero, g))]
    else if stats[0].team == g.team then [TeamStats(g.team, Credit(stats[0].totals, g))] + stats[1..]
    else if Below(g.team, stats[0].team) then [TeamStats(g.team, Credit(Zero, g))] + stats
    else [stats[0]] + Upsert(stats[1..], g)
  }

  /** Counting a row into the table adds its team to the table's teams and nothing else. */
  lemma {:induction false} UpsertTeams(stats: seq<TeamStats>, g: Game)
    ensures Teams(Upsert(stats, g)) == Teams(stats) + {g.team}
  {
    if stats != [] {
      assert stats == [stats[0]] + stats[1..];
      assert Teams(stats) == {stats[0].team} + Teams(stats[1..]);
      if stats[0].team != g.team && !Below(g.team, stats[0].team) {
        UpsertTeams(stats[1..], g);
        assert Teams(Upsert(stats, g)) == {stats[0].team} + Teams(Upsert(stats[1..], g));
      }
    }
  }

  /** Upserting keeps the table strictly ascending. */
  lemma {:induction false} UpsertAscending(stats: seq<TeamStats>, g: Game)
    requires StrictlyAscending(stats)
    ensures StrictlyAscending(Upsert(stats, g))
  {
    if stats == [] {
    } else if stats[0].team == g.team {
    } else if Below(g.team, stats[0].team) {
      var r := Upsert(stats, g);
      forall i, j | 0 <= i < j < |r| ensures Below(r[i].team, r[j].team) {
        if i == 0 && j > 1 {
          BelowTransitive(g.team, stats[0].team, r[j].team);
        }
      }
    } else {
      BelowTotal(g.team, stats[0].team);
      var tail := Upsert(stats[1..], g);
      UpsertAscending(stats[1..], g);
      UpsertTeams(stats[1..], g);
      HeadBelowTail(stats, g, tail);
      var r := [stats[0]] + tail;
      forall i, j | 0 <= i < j < |r| ensures Below(r[i].team, r[j].team) {
        if i > 0 {
          assert r[i] == tail[i - 1] && r[j] == tail[j - 1];
        }
      }
    }
  }

  /** When the row goes after the head of an ascending table, the head stays below
      every name of the upserted rest. */
  lemma HeadBelowTail(stats: seq<TeamStats>, g: Game, tail: seq<TeamStats>)
    requires StrictlyAscending(stats) && stats != [] && Below(stats[0].team, g.team)
    requires Teams(tail) == Teams(stats[1..]) + {g.team}
    ensures forall j :: 0 <= j < |tail| ==> Below(stats[0].team, tail[j].team)
  {
    forall j | 0 <= j < |tail| ensures Below(stats[0].team, tail[j].team) {
      assert tail[j] in tail;
      assert tail[j].team in Teams(stats[1..]) + {g.team};
      if tail[j].team in Teams(stats[1..]) {
        var s :| s in stats[1..] && s.team == tail[j].team;
        var k :| 0 <= k < |stats[1..]| && stats[1..][k] == s;
        assert stats[k + 1] == s;
      }
    }
  }

  /** A team with no row in the table looks up as zero. */
  lemma {:induction false} LookupAbsent(stats: seq<TeamStats>, team: string)
    requires team !in Teams(stats)
    ensures Lookup(stats, team) == Zero
  {
    if stats != [] {
      assert stats[0] in stats;
      assert Teams(stats[1..]) <= Teams(stats) by {
        forall s | s in stats[1..] ensures s in stats {}
      }
      LookupAbsent(stats[1..], team);
    }
  }

  /** A name below the first name of an ascending table is not in it. */
  lemma BelowFirstIsAbsent(stats: seq<TeamStats>, team: string)
    requires StrictlyAscending(stats) && stats != [] && Below(team, stats[0].team)
    ensures team !in Teams(stats)
  {
    if team in Teams(stats) {
      var s :| s in stats && s.team == team;
      var k :| 0 <= k < |stats| && stats[k] == s;
      if k == 0 {
        BelowIrreflexive(team);
      } else {
        BelowTransitive(team, stats[0].team, team);
        BelowIrreflexive(team);
      }
    }
  }

  /** Upserting credits the row to its own team and to no other. */
  lemma {:induction false} UpsertLookup(stats: seq<TeamStats>, g: Game, team: string)
    requires StrictlyAscending(stats)
    ensures Lookup(Upsert(stats, g), team) ==
      if team == g.team then Credit(Lookup(stats, team), g) else Lookup(stats, team)
  {
    if stats == [] {
    } else if stats[0].team == g.team {
    } else if Below(g.team, stats[0].team) {
      BelowFirstIsAbsent(stats, g.team);
      LookupAbsent(stats, g.team);
    } else {
      UpsertLookup(stats[1..], g, team);
    }
  }

  /** Upserting adds the row to the grand totals. */
  lemma {:induction false} UpsertGrand(stats: seq<TeamStats>, g: Game)
    ensures Grand(Upsert(stats, g)) == Credit(Grand(stats), g)
  {
    if stats == [] {
    } else if stats[0].team == g.team {
      var r := [TeamStats(g.team, Credit(stats[0].totals, g))] + stats[1..];
      assert Upsert(stats, g) == r && r[1..] == stats[1..];
    } else if Below(g.team, stats[0].team) {
      var r := [TeamStats(g.team, Credit(Zero, g))] + stats;
      assert Upsert(stats, g) == r && r[1..] == stats;
    } else {
      UpsertGrand(stats[1..], g);
      var r := [stats[0]] + Upsert(stats[1..], g);
      assert Upsert(stats, g) == r && r[1..] == Upsert(stats[1..], g);
    }
  }

  /** Counting one more row into a group is `Credit`. */
  lemma TallyCons(g: Game, games: seq<Game>)
    ensures Tally([g] + games) == Credit(Tally(games), g)
  {
    assert ([g] + games)[1..] == games;
  }

  /** The group-by: one output row per distinct team name among `games`, in strictly
      ascending name order, each carrying the totals of exactly that team's rows. */
  function GroupByTeam(games: seq<Game>): (stats: seq<TeamStats>)
    ensures StrictlyAscending(stats)
    ensures Teams(stats) == TeamsOf(games)
    ensures forall team :: Lookup(stats, team) == Tally(OfTeam(games, team))
    ensures Grand(stats) == Tally(games)
  {
    if games == [] then []
    else
      var g := games[0];
      var rest := GroupByTeam(games[1..]);
      UpsertAscending(rest, g);
      UpsertTeams(rest, g);
      UpsertGrand(rest, g);
      TallyCons(g, games[1..]);
      assert games == [g] + games[1..];
      assert TeamsOf(games) == {g.team} + TeamsOf(games[1..]);
      assert forall team :: Lookup(Upsert(rest, g), team) == Tally(OfTeam(games, team)) by {
        forall team ensures Lookup(Upsert(rest, g), team) == Tally(OfTeam(games, team)) {
          UpsertLookup(rest, g, team);
          if g.team == team {
            TallyCons(g, OfTeam(games[1..], team));
          } else {
            assert OfTeam(games, team) == OfTeam(games[1..], team);
          }
        }
      }
      Upsert(rest, g)
  }

  /** In a strictly ascending table each row is the first, and only, one of its team. */
  lemma {:induction false} LookupAt(stats: seq<TeamStats>, i: nat)
    requires StrictlyAscending(stats) && i < |stats|
    ensures Lookup(stats, stats[i].team) == stats[i].totals
    ensures forall j :: 0 <= j < |stats| && j != i ==> stats[j].team != stats[i].team
  {
    forall j | 0 <= j < |stats| && j != i ensures stats[j].team != stats[i].team {
      if j < i {
        BelowIrreflexive(stats[i].team);
      } else {
        BelowIrreflexive(stats[j].team);
      }
    }
    if i > 0 {
      LookupAt(stats[1..], i - 1);
    }
  }

  /** Every output row: a team that occurs among the rows, appearing in no other output
      row, whose points are the sums over exactly its rows and whose wins plus losses
      are the number of its rows. */
  lemma GroupByTeamRow(games: seq<Game>, i: nat)
    requires i < |GroupByTeam(games)|
    ensures var s := GroupByTeam(games)[i];
      s.team in TeamsOf(games) &&
      (forall j :: 0 <= j < |GroupByTeam(games)| && j != i ==> GroupByTeam(games)[j].team != s.team) &&
      s.totals.pointsScored == SumScored(OfTeam(games, s.team)) &&
      s.totals.pointsAllowed == SumAllowed(OfTeam(games, s.team)) &&
      s.totals.wins + s.totals.losses == |OfTeam(games, s.team)|
  {
    var stats := GroupByTeam(games);
    assert stats[i] in stats;
    LookupAt(stats, i);
  }
}
