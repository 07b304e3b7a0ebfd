/**
 * The parts of the ESPN summary feed that both scripts read: the box score
 * (`boxscore.players`), one entry per team, each with stat groups (starters,
 * bench) of athlete rows. Absent JSON keys are `None`; an absent list is empty.
 */
module EspnFeed {
  import opened Wrappers
  import opened Text

  /** One athlete row: `athlete.displayName` and the `stats` strings `[MIN, PTS, FG, ...]`. */
  datatype AthleteRow = AthleteRow(displayName: Option<string>, stats: seq<string>)

  datatype StatGroup = StatGroup(athletes: seq<AthleteRow>)

  /** One team of the box score: `team.abbreviation` and its `statistics` groups. */
  datatype TeamBox = TeamBox(abbreviation: Option<string>, statistics: seq<StatGroup>)

  /** A player as `get_box_score` reports one. */
  datatype BoxPlayer = BoxPlayer(name: string, points: int, team: string)

  const UNKNOWN_TEAM := "UNK"
  const UNKNOWN_NAME := "Unknown"
  const FIFTY := 50

  /**
   * The points of a row: the stat at index 1, `''` read as 0. `None` when the
   * row is skipped: fewer than two stats, or `int()` refuses the text.
   */
  function ParsePoints(stats: seq<string>): Option<int>
  {
    if |stats| > 1 then
      if stats[1] == "" then Some(0) else ParseInt(stats[1])
    else None
  }

  function TeamName(t: TeamBox): string
  {
    t.abbreviation.GetOr(UNKNOWN_TEAM)
  }

  /** The player a row contributes: none or one. */
  function RowPlayers(team: string, a: AthleteRow): seq<BoxPlayer>
  {
    match ParsePoints(a.stats)
    case Some(p) => [BoxPlayer(a.displayName.GetOr(UNKNOWN_NAME), p, team)]
    case None => []
  }

  function RowsPlayers(team: string, rows: seq<AthleteRow>): seq<BoxPlayer>
  {
    if rows == [] then []
    else RowsPlayers(team, rows[..|rows| - 1]) + RowPlayers(team, rows[|rows| - 1])
  }

  function GroupsPlayers(team: string, groups: seq<StatGroup>): seq<BoxPlayer>
  {
    if groups == [] then []
    else GroupsPlayers(team, groups[..|groups| - 1]) + RowsPlayers(team, groups[|groups| - 1].athletes)
  }

  /** Every player of the box score with parsable points, team by team, group by group, row by row. */
  function BoxScorePlayers(teams: seq<TeamBox>): seq<BoxPlayer>
  {
    if teams == [] then []
    else
      var t := teams[|teams| - 1];
      BoxScorePlayers(teams[..|teams| - 1]) + GroupsPlayers(TeamName(t), t.statistics)
  }

  /** `[p for p in players if p['points'] >= 50]`. */
  function AtLeastFifty(players: seq<BoxPlayer>): (r: seq<BoxPlayer>)
    ensures forall p :: p in r <==> p in players && p.points >= FIFTY
  {
    if players == [] then []
    else
      var last := players[|players| - 1];
      var prefix := players[..|players| - 1];
      assert players == prefix + [last];
      AtLeastFifty(prefix) + (if last.points >= FIFTY then [last] else [])
  }

  lemma {:induction false} AtLeastFiftyAppend(a: seq<BoxPlayer>, b: seq<BoxPlayer>)
    ensures AtLeastFifty(a + b) == AtLeastFifty(a) + AtLeastFifty(b)
  {
    if b == [] {
      assert a + b == a;
    } else {
      assert (a + b)[..|a + b| - 1] == a + b[..|b| - 1];
      assert (a + b)[|a + b| - 1] == b[|b| - 1];
      AtLeastFiftyAppend(a, b[..|b| - 1]);
    }
  }

  /** A row is kept exactly when it has a points stat that reads as an integer. */
  lemma RowPointsRead(team: string, a: AthleteRow, n: int)
    requires |a.stats| > 1 && a.stats[1] == IntToString(n)
    ensures RowPlayers(team, a) == [BoxPlayer(a.displayName.GetOr(UNKNOWN_NAME), n, team)]
  {
    ParseIntToString(n);
  }

  /** The cases the source singles out: an empty points stat, a short row, a non-numeric stat. */
  lemma RowEdgeCases(team: string, name: Option<string>, minutes: string)
    ensures RowPlayers(team, AthleteRow(name, [minutes, ""])) == [BoxPlayer(name.GetOr(UNKNOWN_NAME), 0, team)]
    ensures RowPlayers(team, AthleteRow(name, [minutes])) == []
    ensures RowPlayers(team, AthleteRow(name, [])) == []
    ensures RowPlayers(team, AthleteRow(name, [minutes, "DNP"])) == []
    ensures RowPlayers(team, AthleteRow(None, [minutes, "51"])) == [BoxPlayer("Unknown", 51, team)]
  {
    assert IntToString(51) == "51";
    ParseIntToString(51);
  }

  /** Every player a stat group contributes carries the team it was read under. */
  lemma {:induction false} RowsPlayersTeam(team: string, rows: seq<AthleteRow>)
    ensures forall p :: p in RowsPlayers(team, rows) ==> p.team == team
  {
    if rows != [] {
      RowsPlayersTeam(team, rows[..|rows| - 1]);
    }
  }

  lemma {:induction false} GroupsPlayersTeam(team: string, groups: seq<StatGroup>)
    ensures forall p :: p in GroupsPlayers(team, groups) ==> p.team == team
  {
    if groups != [] {
      GroupsPlayersTeam(team, groups[..|groups| - 1]);
      RowsPlayersTeam(team, groups[|groups| - 1].athletes);
    }
  }

  /** A team without an abbreviation reports all its players under `UNK`. */
  lemma UnknownTeamDefault(groups: seq<StatGroup>)
    ensures forall p :: p in BoxScorePlayers([TeamBox(None, groups)]) ==> p.team == UNKNOWN_TEAM
  {
    var t := TeamBox(None, groups);
    assert [t][..0] == [];
    assert BoxScorePlayers([t]) == GroupsPlayers(UNKNOWN_TEAM, groups);
    GroupsPlayersTeam(UNKNOWN_TEAM, groups);
  }
}
