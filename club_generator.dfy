/**
 * `SeasonClubGenerator` of `generate_50_club_data.py`: the season label and
 * start, the choice between an incremental and a full scan, the 50-point
 * filter of its box score, and `update_50_club_data`, which merges the new
 * performances into the season's `50_club.json` record.
 *
 * The clock is the parameter `today` (with `nowStamp` for
 * `datetime.now().isoformat()`), the ESPN scoreboard scan is `scan`, and the
 * ESPN summary fetched per game id is `summary`.
 */
module ClubGenerator {
  import opened Wrappers
  import opened Text
  import opened Calendar
  import opened EspnFeed
  import opened ClubRecords

  /** A completed game of the range scan. */
  datatype ClubGame = ClubGame(gameId: string, date: string, name: string, homeTeam: string, awayTeam: string)

  /** What `update_50_club_data` ends with: the new record, or the exception a bad `lastCheckedDate` raises. */
  datatype Update = Updated(data: ClubData) | ScanStartError

  const SEASON_START_MONTH := 10
  const SEASON_START_DAY := 15

  /** Python's `s[2:]`: empty when `s` is shorter. */
  function DropTwo(s: string): string
  {
    if |s| >= 2 then s[2..] else ""
  }

  /** `get_current_season`: `2024-25` from October 2024 to September 2025. */
  function CurrentSeason(today: Date): string
  {
    if today.month >= SEASON_START_MONTH then IntToString(today.year) + "-" + DropTwo(IntToString(today.year + 1))
    else IntToString(today.year - 1) + "-" + DropTwo(IntToString(today.year))
  }

  /** `get_season_start_date`: October 15 of the season's first year. */
  function SeasonStartDate(today: Date): Date
  {
    Date(if today.month < SEASON_START_MONTH then today.year - 1 else today.year, SEASON_START_MONTH, SEASON_START_DAY)
  }

  /** A year from 1000 to 9999 prints as its four digits. */
  lemma FourDigits(n: int)
    requires 1000 <= n <= 9999
    ensures IntToString(n) == [DigitChar(n / 1000), DigitChar(n / 100 % 10), DigitChar(n / 10 % 10), DigitChar(n % 10)]
  {
    var d3, d2, d1, d0 := DigitChar(n / 1000), DigitChar(n / 100 % 10), DigitChar(n / 10 % 10), DigitChar(n % 10);
    assert n / 10 / 10 == n / 100 && n / 100 / 10 == n / 1000;
    assert NatToString(n / 1000) == [d3];
    assert NatToString(n / 100) == [d3] + [d2];
    assert NatToString(n / 10) == [d3, d2] + [d1];
    assert NatToString(n) == [d3, d2, d1] + [d0];
  }

  /** The label written for a season whose first year is `y`. */
  lemma SeasonLabel(y: int)
    requires 1000 <= y <= 9998
    ensures var s := IntToString(y) + "-" + DropTwo(IntToString(y + 1));
      |s| == 7 && s[..4] == IntToString(y) && s[4] == '-'
      && s[5..] == [DigitChar((y + 1) / 10 % 10), DigitChar((y + 1) % 10)]
  {
    var a := IntToString(y);
    var b := IntToString(y + 1);
    FourDigits(y);
    FourDigits(y + 1);
    var z := y + 1;
    var tail := [DigitChar(z / 10 % 10), DigitChar(z % 10)];
    assert DropTwo(b) == tail;
    var s := a + "-" + tail;
    assert |a| == 4;
    assert s[..4] == a;
    assert s[5..] == tail;
  }

  /**
   * The label is the season's first year, a dash and the last two digits of
   * the following year, and its first year is the year of the season start.
   */
  lemma CurrentSeasonFormat(today: Date)
    requires 1000 <= SeasonStartDate(today).year <= 9998
    ensures var y := SeasonStartDate(today).year;
      var s := CurrentSeason(today);
      |s| == 7 && s[..4] == IntToString(y) && s[4] == '-'
      && s[5..] == [DigitChar((y + 1) / 10 % 10), DigitChar((y + 1) % 10)]
      && ParseInt(s[..4]) == Some(y)
  {
    var y := SeasonStartDate(today).year;
    assert CurrentSeason(today) == IntToString(y) + "-" + DropTwo(IntToString(y + 1));
    SeasonLabel(y);
    ParseIntToString(y);
  }

  /** Both halves of the season, with the labels and start dates the source documents. */
  lemma SeasonExamples()
    ensures CurrentSeason(Date(2024, 10, 20)) == "2024-25"
    ensures CurrentSeason(Date(2025, 3, 1)) == "2024-25"
    ensures CurrentSeason(Date(2025, 9, 30)) == "2024-25"
    ensures SeasonStartDate(Date(2025, 3, 1)) == Date(2024, 10, 15)
    ensures SeasonStartDate(Date(2024, 10, 1)) == Date(2024, 10, 15)
  {
    FourDigits(2024);
    FourDigits(2025);
  }

  /**
   * Where the scan begins: the day after `lastCheckedDate` when there is
   * existing data, no forced full scan and a non-empty `lastCheckedDate`;
   * the season start otherwise. `None` is the exception of a date that
   * does not parse or whose next day is past the calendar's end.
   */
  function ScanStart(existing: Option<ClubData>, forceFull: bool, today: Date): Option<Date>
  {
    if IsTruthy(existing) && !forceFull && existing.value.lastCheckedDate.Some? && existing.value.lastCheckedDate.value != "" then
      match ParseIso(existing.value.lastCheckedDate.value)
      case None => None
      case Some(last) => if InIsoRange(NextDay(last)) then Some(NextDay(last)) else None
    else Some(SeasonStartDate(today))
  }

  /** The incremental case resumes exactly one day after the last checked day. */
  lemma ScanStartIncremental(existing: ClubData, today: Date, last: Date)
    requires !IsEmptyDict(existing) && InIsoRange(last) && InIsoRange(NextDay(last))
    requires existing.lastCheckedDate == Some(FormatIso(last))
    ensures ScanStart(Some(existing), false, today) == Some(NextDay(last))
  {
    ParseFormatIso(last);
  }

  /** The full-scan cases: no data, empty data, a forced scan, or no usable `lastCheckedDate`. */
  lemma ScanStartFull(existing: Option<ClubData>, forceFull: bool, today: Date)
    requires !IsTruthy(existing) || forceFull || existing.value.lastCheckedDate in {None, Some("")}
    ensures ScanStart(existing, forceFull, today) == Some(SeasonStartDate(today))
  {
  }

  /** The opposing team of a scorer: the away team when the scorer's team is the home team, otherwise the home team. */
  function Opponent(game: ClubGame, team: string): string
  {
    if team == game.homeTeam then game.awayTeam else game.homeTeam
  }

  /** For a scorer of either side of a game between two teams, the opponent is the other side. */
  lemma OpponentIsOtherSide(game: ClubGame, team: string)
    requires game.homeTeam != game.awayTeam && (team == game.homeTeam || team == game.awayTeam)
    ensures Opponent(game, team) != team
    ensures {team, Opponent(game, team)} == {game.homeTeam, game.awayTeam}
  {
  }

  /** The generator's `get_box_score`: only the players with at least 50 points, in box-score order. */
  method GetClubBoxScore(teams: seq<TeamBox>) returns (players: seq<BoxPlayer>)
    ensures players == AtLeastFifty(BoxScorePlayers(teams))
  {
    players := [];
    var i := 0;
    while i < |teams|
      invariant 0 <= i <= |teams|
      invariant players == AtLeastFifty(BoxScorePlayers(teams[..i]))
    {
      var team := teams[i];
      var teamName := TeamName(team);
      var groups := team.statistics;
      ghost var beforeTeam := players;
      var j := 0;
      while j < |groups|
        invariant 0 <= j <= |groups|
        invariant players == beforeTeam + AtLeastFifty(GroupsPlayers(teamName, groups[..j]))
      {
        var rows := groups[j].athletes;
        var kept := FiftyPointRows(teamName, rows);
        AppendAssoc(beforeTeam, AtLeastFifty(GroupsPlayers(teamName, groups[..j])), kept);
        players := players + kept;
        assert groups[..j + 1][..j] == groups[..j];
        AtLeastFiftyAppend(GroupsPlayers(teamName, groups[..j]), RowsPlayers(teamName, rows));
        j := j + 1;
      }
      assert groups[..j] == groups;
      assert teams[..i + 1][..i] == teams[..i];
      AtLeastFiftyAppend(BoxScorePlayers(teams[..i]), GroupsPlayers(teamName, groups));
      i := i + 1;
    }
    assert teams[..i] == teams;
  }

  /** The rows of one stat group: a row is kept when its points parse and reach 50. */
  method FiftyPointRows(teamName: string, rows: seq<AthleteRow>) returns (players: seq<BoxPlayer>)
    ensures players == AtLeastFifty(RowsPlayers(teamName, rows))
  {
    players := [];
    var k := 0;
    while k < |rows|
      invariant 0 <= k <= |rows|
      invariant players == AtLeastFifty(RowsPlayers(teamName, rows[..k]))
    {
      var row := RowPlayers(teamName, rows[k]);
      ghost var done := RowsPlayers(teamName, rows[..k]);
      assert rows[..k + 1][..k] == rows[..k];
      assert RowsPlayers(teamName, rows[..k + 1]) == done + row;
      AtLeastFiftyAppend(done, row);
      AtLeastFiftyRow(row);
      if row != [] && row[0].points >= FIFTY {
        players := players + row;
      }
      k := k + 1;
    }
    assert rows[..k] == rows;
  }

  lemma AtLeastFiftyRow(row: seq<BoxPlayer>)
    requires |row| <= 1
    ensures AtLeastFifty(row) == if row != [] && row[0].points >= FIFTY then row else []
  {
    if row != [] {
      assert row[..0] == [];
    }
  }

  /** The `50_club.json` entry of one 50-point player of a game. */
  function ToScorer(game: ClubGame, p: BoxPlayer): Scorer
  {
    Scorer(game.date, p.name, p.team, p.points, Opponent(game, p.team))
  }

  function ClubEntries(game: ClubGame, players: seq<BoxPlayer>): seq<Scorer>
  {
    if players == [] then []
    else ClubEntries(game, players[..|players| - 1]) + [ToScorer(game, players[|players| - 1])]
  }

  /** The new performances of the scanned games, game by game. */
  function NewClubScorers(games: seq<ClubGame>, summary: string -> seq<TeamBox>): seq<Scorer>
  {
    if games == [] then []
    else
      var g := games[|games| - 1];
      NewClubScorers(games[..|games| - 1], summary) + ClubEntries(g, AtLeastFifty(BoxScorePlayers(summary(g.gameId))))
  }

  lemma {:induction false} ClubEntriesFrom(game: ClubGame, players: seq<BoxPlayer>, x: Scorer)
    requires x in ClubEntries(game, players)
    ensures exists p :: p in players && x == ToScorer(game, p)
  {
    var prefix := players[..|players| - 1];
    if x in ClubEntries(game, prefix) {
      ClubEntriesFrom(game, prefix, x);
      var p :| p in prefix && x == ToScorer(game, p);
      assert p in players;
    } else {
      assert x == ToScorer(game, players[|players| - 1]);
    }
  }

  /** Every new performance has at least 50 points and is dated, and opposed, as its own game. */
  lemma {:induction false} NewClubScorersFrom(games: seq<ClubGame>, summary: string -> seq<TeamBox>, x: Scorer)
    requires x in NewClubScorers(games, summary)
    ensures x.points >= FIFTY
    ensures exists g :: g in games && x.date == g.date && x.opponent == Opponent(g, x.team)
  {
    var prefix := games[..|games| - 1];
    var g := games[|games| - 1];
    if x in NewClubScorers(prefix, summary) {
      NewClubScorersFrom(prefix, summary, x);
      var h :| h in prefix && x.date == h.date && x.opponent == Opponent(h, x.team);
      assert h in games;
    } else {
      ClubEntriesFrom(g, AtLeastFifty(BoxScorePlayers(summary(g.gameId))), x);
    }
  }

  /** The scorers an update starts from: the existing list when there is data holding `scorers`, else none. */
  function PriorScorers(existing: Option<ClubData>): seq<Scorer>
  {
    if IsTruthy(existing) && existing.value.scorers.Some? then existing.value.scorers.value else []
  }

  /** The running `totalGames`: the old count (0 when absent) plus the games scanned, or just the games scanned. */
  function TotalGames(existing: Option<ClubData>, gameCount: nat): int
  {
    if IsTruthy(existing) && existing.value.scorers.Some? then existing.value.totalGames.GetOr(0) + gameCount else gameCount
  }

  /** The record written when the scan finds no game: the old one with new dates, or an empty season. */
  function NoGamesData(existing: Option<ClubData>, today: Date, nowStamp: string): ClubData
    requires InIsoRange(today)
  {
    if IsTruthy(existing) then existing.value.(lastCheckedDate := Some(FormatIso(today)), lastUpdated := Some(nowStamp))
    else ClubData(Some(CurrentSeason(today)), Some(nowStamp), Some(FormatIso(today)), Some(0), Some([]))
  }

  /** The record written after scanning `games`: the merged scorers and the running game count. */
  function MergedData(existing: Option<ClubData>, today: Date, nowStamp: string,
                      games: seq<ClubGame>, summary: string -> seq<TeamBox>): ClubData
    requires InIsoRange(today)
  {
    var all := PriorScorers(existing) + NewClubScorers(games, summary);
    ClubData(Some(CurrentSeason(today)), Some(nowStamp), Some(FormatIso(today)), Some(TotalGames(existing, |games|)), Some(SortByDate(FirstOccurrences(all))))
  }

  /** The whole of `update_50_club_data`. */
  function UpdatedClubData(existing: Option<ClubData>, forceFull: bool, today: Date, nowStamp: string,
                           scan: (Date, Date) -> seq<ClubGame>, summary: string -> seq<TeamBox>): Update
    requires InIsoRange(today)
  {
    match ScanStart(existing, forceFull, today)
    case None => ScanStartError
    case Some(start) =>
      var games := scan(start, today);
      Updated(if games == [] then NoGamesData(existing, today, nowStamp) else MergedData(existing, today, nowStamp, games, summary))
  }

  method UpdateClubData(existing: Option<ClubData>, forceFull: bool, today: Date, nowStamp: string,
                        scan: (Date, Date) -> seq<ClubGame>, summary: string -> seq<TeamBox>)
    returns (result: Update)
    requires InIsoRange(today)
    ensures result == UpdatedClubData(existing, forceFull, today, nowStamp, scan, summary)
  {
    var season := CurrentSeason(today);
    var start := ScanStart(existing, forceFull, today);
    if start.None? {
      return ScanStartError;
    }
    var endDate := FormatIso(today);
    var games := scan(start.value, today);
    if games == [] {
      if IsTruthy(existing) {
        var data := existing.value;
        data := data.(lastCheckedDate := Some(endDate));
        data := data.(lastUpdated := Some(nowStamp));
        assert data == NoGamesData(existing, today, nowStamp);
        return Updated(data);
      }
      return Updated(ClubData(Some(season), Some(nowStamp), Some(endDate), Some(0), Some([])));
    }

    var data := MergeNewGames(existing, today, nowStamp, games, summary);
    result := Updated(data);
  }

  /** The part of `update_50_club_data` after a non-empty scan: collect, merge, deduplicate, sort, count. */
  method MergeNewGames(existing: Option<ClubData>, today: Date, nowStamp: string,
                       games: seq<ClubGame>, summary: string -> seq<TeamBox>)
    returns (data: ClubData)
    requires InIsoRange(today)
    ensures data == MergedData(existing, today, nowStamp, games, summary)
  {
    var season := CurrentSeason(today);
    var endDate := FormatIso(today);
    var newScorers := CollectNewScorers(games, summary);

    var all: seq<Scorer>;
    var totalGames: int;
    if IsTruthy(existing) && existing.value.scorers.Some? {
      all := existing.value.scorers.value + newScorers;
      totalGames := existing.value.totalGames.GetOr(0) + |games|;
    } else {
      all := newScorers;
      totalGames := |games|;
      assert all == PriorScorers(existing) + newScorers;
    }
    var unique := Dedup(all);
    unique := SortByDate(unique);
    assert unique == SortByDate(FirstOccurrences(PriorScorers(existing) + NewClubScorers(games, summary)));
    assert totalGames == TotalGames(existing, |games|);
    data := ClubData(Some(season), Some(nowStamp), Some(endDate), Some(totalGames), Some(unique));
  }

  /** The scan loop: for each game, its 50-point players as club entries, in game order. */
  method CollectNewScorers(games: seq<ClubGame>, summary: string -> seq<TeamBox>) returns (newScorers: seq<Scorer>)
    ensures newScorers == NewClubScorers(games, summary)
  {
    newScorers := [];
    var i := 0;
    while i < |games|
      invariant 0 <= i <= |games|
      invariant newScorers == NewClubScorers(games[..i], summary)
    {
      var game := games[i];
      var found := GetClubBoxScore(summary(game.gameId));
      var entries := GameEntries(game, found);
      newScorers := newScorers + entries;
      assert games[..i + 1][..i] == games[..i];
      assert NewClubScorers(games[..i + 1], summary) == NewClubScorers(games[..i], summary) + ClubEntries(game, found);
      i := i + 1;
    }
    assert games[..i] == games;
  }

  // ---------------------------------------------------------------------------
  // What an update promises

  /** With no game to scan, existing data comes back with only its two dates changed. */
  lemma UpdateNoGamesExisting(existing: Option<ClubData>, forceFull: bool, today: Date, nowStamp: string,
                              scan: (Date, Date) -> seq<ClubGame>, summary: string -> seq<TeamBox>, start: Date)
    requires InIsoRange(today) && IsTruthy(existing)
    requires ScanStart(existing, forceFull, today) == Some(start) && scan(start, today) == []
    ensures var r := UpdatedClubData(existing, forceFull, today, nowStamp, scan, summary);
      r.Updated?
      && r.data.season == existing.value.season
      && r.data.totalGames == existing.value.totalGames
      && r.data.scorers == existing.value.scorers
      && r.data.lastCheckedDate == Some(FormatIso(today))
      && r.data.lastUpdated == Some(nowStamp)
  {
  }

  /** With no game to scan and no existing data, the result is an empty season record. */
  lemma UpdateNoGamesFresh(existing: Option<ClubData>, forceFull: bool, today: Date, nowStamp: string,
                           scan: (Date, Date) -> seq<ClubGame>, summary: string -> seq<TeamBox>)
    requires InIsoRange(today) && !IsTruthy(existing)
    requires scan(SeasonStartDate(today), today) == []
    ensures UpdatedClubData(existing, forceFull, today, nowStamp, scan, summary)
         == Updated(ClubData(Some(CurrentSeason(today)), Some(nowStamp), Some(FormatIso(today)), Some(0), Some([])))
  {
  }

  /**
   * With games to scan, the record is new apart from the merged scorers and
   * the running count: no repeated key, every prior and new key kept, newest
   * first, a prior record beats a new one with its key, and every record not
   * carried over has at least 50 points. A forced full scan merges too.
   */
  lemma UpdateMerged(existing: Option<ClubData>, forceFull: bool, today: Date, nowStamp: string,
                     scan: (Date, Date) -> seq<ClubGame>, summary: string -> seq<TeamBox>, start: Date)
    requires InIsoRange(today)
    requires ScanStart(existing, forceFull, today) == Some(start) && scan(start, today) != []
    ensures var games := scan(start, today);
      var prior := PriorScorers(existing);
      var found := NewClubScorers(games, summary);
      var r := UpdatedClubData(existing, forceFull, today, nowStamp, scan, summary);
      r.Updated?
      && r.data.season == Some(CurrentSeason(today))
      && r.data.lastCheckedDate == Some(FormatIso(today))
      && r.data.lastUpdated == Some(nowStamp)
      && r.data.totalGames == Some(TotalGames(existing, |games|))
      && r.data.scorers == Some(MergeScorers(prior, found))
      && KeysUnique(r.data.scorers.value)
      && KeySet(r.data.scorers.value) == KeySet(prior) + KeySet(found)
      && NewestFirst(r.data.scorers.value)
      && (forall x :: x in r.data.scorers.value && KeyOf(x) in KeySet(prior) ==> x in prior)
      && (forall x :: x in r.data.scorers.value ==> x in prior || x.points >= FIFTY)
  {
    var games := scan(start, today);
    var prior := PriorScorers(existing);
    var found := NewClubScorers(games, summary);
    var merged := MergeScorers(prior, found);
    MergeScorersSpec(prior, found);
    forall x | x in merged
      ensures x in prior || x.points >= FIFTY
    {
      assert x in multiset(merged);
      assert x in FirstOccurrences(prior + found);
      FirstOccurrencesFromInput(prior + found);
      if x !in prior {
        NewClubScorersFrom(games, summary, x);
      }
    }
  }

  /** Runs chain: after any update, a plain next run resumes on the day after the one just checked. */
  lemma UpdateThenResume(existing: Option<ClubData>, forceFull: bool, today: Date, nowStamp: string,
                         scan: (Date, Date) -> seq<ClubGame>, summary: string -> seq<TeamBox>, later: Date)
    requires InIsoRange(today) && InIsoRange(NextDay(today))
    requires ScanStart(existing, forceFull, today).Some?
    ensures ScanStart(Some(UpdatedClubData(existing, forceFull, today, nowStamp, scan, summary).data), false, later)
         == Some(NextDay(today))
  {
    var data := UpdatedClubData(existing, forceFull, today, nowStamp, scan, summary).data;
    assert data.lastCheckedDate == Some(FormatIso(today));
    ScanStartIncremental(data, later, today);
  }

  /** The inner loop of the scan: one club entry per 50-point player of the game. */
  method GameEntries(game: ClubGame, found: seq<BoxPlayer>) returns (entries: seq<Scorer>)
    ensures entries == ClubEntries(game, found)
  {
    entries := [];
    var j := 0;
    while j < |found|
      invariant 0 <= j <= |found|
      invariant entries == ClubEntries(game, found[..j])
    {
      entries := entries + [ToScorer(game, found[j])];
      assert found[..j + 1][..j] == found[..j];
      j := j + 1;
    }
    assert found[..j] == found;
  }
}
