/**
 * The daily checker (`src/nba_50_checker.py`): keep yesterday's completed
 * games, read every box score, keep the players with 50 or more points, and
 * mail a plain-text alert only when there is at least one.
 */
module DailyChecker {
  import opened Wrappers
  import opened Text
  import opened Calendar
  import opened EspnFeed

  const STATUS_FINAL := "STATUS_FINAL"

  /** One scoreboard event: `id`, `name`, `shortName` and `status.type.name` (absent: `None`). */
  datatype Event = Event(id: string, name: string, shortName: string, status: Option<string>)

  /** A completed game as `get_games_for_date` records it. */
  datatype Game = Game(gameId: string, name: string, shortName: string)

  /** The `email` section of `config.json`; only its `enabled` flag matters before the SMTP session. */
  datatype EmailSection = EmailSection(enabled: Option<bool>)

  datatype Config = Config(email: Option<EmailSection>)

  /** `get_yesterday_date`: the day before `today`, as `YYYYMMDD`. */
  function YesterdayParam(today: Date): (s: string)
    requires InIsoRange(today) && InIsoRange(PrevDay(today))
    ensures |s| == 8 && AllDigits(s)
    ensures exists y :: InIsoRange(y) && NextDay(y) == today && s == FormatCompact(y)
  {
    var y := PrevDay(today);
    assert InIsoRange(y) && NextDay(y) == today;
    FormatCompact(y)
  }

  predicate IsFinal(e: Event)
  {
    e.status.GetOr("") == STATUS_FINAL
  }

  function GameOf(e: Event): Game
  {
    Game(e.id, e.name, e.shortName)
  }

  /** The completed games of the scoreboard, in scoreboard order. */
  function CompletedGames(events: seq<Event>): seq<Game>
  {
    if events == [] then []
    else
      var e := events[|events| - 1];
      CompletedGames(events[..|events| - 1]) + (if IsFinal(e) then [GameOf(e)] else [])
  }

  /** A game is reported exactly when some event with status `STATUS_FINAL` produced it. */
  lemma {:induction false} CompletedGamesExact(events: seq<Event>, g: Game)
    ensures g in CompletedGames(events) <==>
            exists i :: 0 <= i < |events| && IsFinal(events[i]) && g == GameOf(events[i])
  {
    if events != [] {
      var prefix := events[..|events| - 1];
      CompletedGamesExact(prefix, g);
      if g in CompletedGames(prefix) {
        var i :| 0 <= i < |prefix| && IsFinal(prefix[i]) && g == GameOf(prefix[i]);
        assert events[i] == prefix[i];
      }
      if exists i :: 0 <= i < |events| && IsFinal(events[i]) && g == GameOf(events[i]) {
        var i :| 0 <= i < |events| && IsFinal(events[i]) && g == GameOf(events[i]);
        if i < |prefix| {
          assert prefix[i] == events[i];
        }
      }
    }
  }

  /** The filter keeps the order: the games of a concatenation are the concatenated games. */
  lemma {:induction false} CompletedGamesAppend(a: seq<Event>, b: seq<Event>)
    ensures CompletedGames(a + b) == CompletedGames(a) + CompletedGames(b)
  {
    if b == [] {
      assert a + b == a;
    } else {
      assert (a + b)[..|a + b| - 1] == a + b[..|b| - 1];
      assert (a + b)[|a + b| - 1] == b[|b| - 1];
      CompletedGamesAppend(a, b[..|b| - 1]);
    }
  }

  /** An event without a status is not a completed game. */
  lemma MissingStatusExcluded(e: Event)
    requires e.status == None
    ensures CompletedGames([e]) == []
  {
    assert [e][..0] == [];
  }

  /** The loop of `get_games_for_date`. */
  method GetGamesForDate(events: seq<Event>) returns (games: seq<Game>)
    ensures games == CompletedGames(events)
  {
    games := [];
    var i := 0;
    while i < |events|
      invariant 0 <= i <= |events|
      invariant games == CompletedGames(events[..i])
    {
      var e := events[i];
      if e.status.GetOr("") == STATUS_FINAL {
        games := games + [Game(e.id, e.name, e.shortName)];
      }
      assert events[..i + 1][..i] == events[..i];
      i := i + 1;
    }
    assert events[..i] == events;
  }

  /** The nested loops of `get_box_score`: every player with parsable points, in feed order. */
  method GetBoxScore(teams: seq<TeamBox>) returns (players: seq<BoxPlayer>)
    ensures players == BoxScorePlayers(teams)
  {
    players := [];
    var i := 0;
    while i < |teams|
      invariant 0 <= i <= |teams|
      invariant players == BoxScorePlayers(teams[..i])
    {
      var team := teams[i];
      var teamPlayers := TeamPlayers(TeamName(team), team.statistics);
      players := players + teamPlayers;
      assert teams[..i + 1][..i] == teams[..i];
      i := i + 1;
    }
    assert teams[..i] == teams;
  }

  /** The loop over one team's stat groups (starters, bench). */
  method TeamPlayers(teamName: string, groups: seq<StatGroup>) returns (players: seq<BoxPlayer>)
    ensures players == GroupsPlayers(teamName, groups)
  {
    players := [];
    var j := 0;
    while j < |groups|
      invariant 0 <= j <= |groups|
      invariant players == GroupsPlayers(teamName, groups[..j])
    {
      var groupPlayers := GroupPlayers(teamName, groups[j].athletes);
      players := players + groupPlayers;
      assert groups[..j + 1][..j] == groups[..j];
      j := j + 1;
    }
    assert groups[..j] == groups;
  }

  /** The loop over the athlete rows of one stat group. */
  method GroupPlayers(teamName: string, rows: seq<AthleteRow>) returns (players: seq<BoxPlayer>)
    ensures players == RowsPlayers(teamName, rows)
  {
    players := [];
    var k := 0;
    while k < |rows|
      invariant 0 <= k <= |rows|
      invariant players == RowsPlayers(teamName, rows[..k])
    {
      players := players + RowPlayers(teamName, rows[k]);
      assert rows[..k + 1][..k] == rows[..k];
      k := k + 1;
    }
    assert rows[..k] == rows;
  }

  /** The 50-point scorers of the given games, game by game; `summary` is the box score fetched per game id. */
  function GameScorers(games: seq<Game>, summary: string -> seq<TeamBox>): seq<BoxPlayer>
  {
    if games == [] then []
    else
      GameScorers(games[..|games| - 1], summary)
      + AtLeastFifty(BoxScorePlayers(summary(games[|games| - 1].gameId)))
  }

  /** What `find_50_point_scorers` returns for a scoreboard. */
  function FiftyPointScorers(events: seq<Event>, summary: string -> seq<TeamBox>): seq<BoxPlayer>
  {
    var games := CompletedGames(events);
    if games == [] then [] else GameScorers(games, summary)
  }

  /** Some game's box score lists `p`. */
  predicate InSomeBoxScore(games: seq<Game>, summary: string -> seq<TeamBox>, p: BoxPlayer)
  {
    exists i :: 0 <= i < |games| && p in BoxScorePlayers(summary(games[i].gameId))
  }

  lemma InSomeBoxScoreSplit(games: seq<Game>, summary: string -> seq<TeamBox>, p: BoxPlayer)
    requires games != []
    ensures InSomeBoxScore(games, summary, p) <==>
            InSomeBoxScore(games[..|games| - 1], summary, p)
            || p in BoxScorePlayers(summary(games[|games| - 1].gameId))
  {
    var prefix := games[..|games| - 1];
    if InSomeBoxScore(prefix, summary, p) {
      var i :| 0 <= i < |prefix| && p in BoxScorePlayers(summary(prefix[i].gameId));
      assert games[i] == prefix[i];
    }
    if InSomeBoxScore(games, summary, p) {
      var i :| 0 <= i < |games| && p in BoxScorePlayers(summary(games[i].gameId));
      if i < |prefix| {
        assert prefix[i] == games[i];
      }
    }
  }

  /** A player is reported exactly when some game's box score has them at 50 or more points. */
  lemma {:induction false} GameScorersExact(games: seq<Game>, summary: string -> seq<TeamBox>, p: BoxPlayer)
    ensures p in GameScorers(games, summary) <==> p.points >= FIFTY && InSomeBoxScore(games, summary, p)
  {
    if games != [] {
      var prefix := games[..|games| - 1];
      var inLast := BoxScorePlayers(summary(games[|games| - 1].gameId));
      GameScorersExact(prefix, summary, p);
      InSomeBoxScoreSplit(games, summary, p);
      assert p in GameScorers(games, summary) <==>
             p in GameScorers(prefix, summary) || p in AtLeastFifty(inLast);
    }
  }

  /** With no completed game there is nobody to report. */
  lemma NoCompletedGamesNoScorers(events: seq<Event>, summary: string -> seq<TeamBox>)
    requires forall i :: 0 <= i < |events| ==> !IsFinal(events[i])
    ensures FiftyPointScorers(events, summary) == []
  {
    if CompletedGames(events) != [] {
      var g := CompletedGames(events)[0];
      CompletedGamesExact(events, g);
    }
  }

  /** The loop of `find_50_point_scorers`. */
  method FindFiftyPointScorers(events: seq<Event>, summary: string -> seq<TeamBox>) returns (scorers: seq<BoxPlayer>)
    ensures scorers == FiftyPointScorers(events, summary)
    ensures forall p :: p in scorers ==> p.points >= FIFTY
  {
    var games := GetGamesForDate(events);
    if |games| == 0 {
      return [];
    }
    scorers := [];
    var i := 0;
    while i < |games|
      invariant 0 <= i <= |games|
      invariant scorers == GameScorers(games[..i], summary)
    {
      var players := GetBoxScore(summary(games[i].gameId));
      var gameScorers := AtLeastFifty(players);
      scorers := scorers + gameScorers;
      assert games[..i + 1][..i] == games[..i];
      i := i + 1;
    }
    assert games[..i] == games;
    forall p | p in scorers
      ensures p.points >= FIFTY
    {
      GameScorersExact(games, summary, p);
    }
  }

  function Header(gameDate: string): string
  {
    "NBA 50-Point Alert - " + gameDate + "\n\n"
  }

  function ScorerLine(p: BoxPlayer): string
  {
    p.name + " scored " + IntToString(p.points) + " points last night!\n"
  }

  function ScorerLines(scorers: seq<BoxPlayer>): string
  {
    if scorers == [] then ""
    else ScorerLines(scorers[..|scorers| - 1]) + ScorerLine(scorers[|scorers| - 1])
  }

  /** The fixed closing text: promotion, code, validity, savings, a rule and the signature. */
  const FOOTER: string := "\nDoorDash 50% OFF Promotion is ACTIVE Today!\n\nUse code: NBA50\nValid today until 11:59 PM PT\nSave 50% off (up to $10) on DoorDash delivery orders\n\n---\nThis is an automated alert from your NBA 50-Point Checker"

  /** The plain-text alert: a header line and a blank line, one line per scorer, then the fixed footer. */
  function TextEmail(scorers: seq<BoxPlayer>, gameDate: string): string
  {
    Header(gameDate) + ScorerLines(scorers) + FOOTER
  }

  /** `create_text_email`, which builds the text with `+=`. */
  method CreateTextEmail(scorers: seq<BoxPlayer>, gameDate: string) returns (content: string)
    ensures content == TextEmail(scorers, gameDate)
  {
    content := Header(gameDate);
    var i := 0;
    while i < |scorers|
      invariant 0 <= i <= |scorers|
      invariant content == Header(gameDate) + ScorerLines(scorers[..i])
    {
      var scorer := scorers[i];
      AppendAssoc(Header(gameDate), ScorerLines(scorers[..i]), ScorerLine(scorer));
      content := content + ScorerLine(scorer);
      assert scorers[..i + 1][..i] == scorers[..i];
      i := i + 1;
    }
    assert scorers[..i] == scorers;
    // The six closing `+=` of the source append exactly FOOTER.
    content := content + FOOTER;
  }

  function CountChar(s: string, c: char): nat
  {
    if s == [] then 0 else CountChar(s[..|s| - 1], c) + (if s[|s| - 1] == c then 1 else 0)
  }

  lemma {:induction false} CountCharAppend(a: string, b: string, c: char)
    ensures CountChar(a + b, c) == CountChar(a, c) + CountChar(b, c)
  {
    if b == [] {
      assert a + b == a;
    } else {
      assert (a + b)[..|a + b| - 1] == a + b[..|b| - 1];
      assert (a + b)[|a + b| - 1] == b[|b| - 1];
      CountCharAppend(a, b[..|b| - 1], c);
    }
  }

  lemma {:induction false} CountCharAbsent(s: string, c: char)
    requires forall k :: 0 <= k < |s| ==> s[k] != c
    ensures CountChar(s, c) == 0
  {
    if s != [] {
      CountCharAbsent(s[..|s| - 1], c);
    }
  }

  /** A scorer line ends with the only line break it adds. */
  lemma ScorerLineBreaks(p: BoxPlayer)
    requires CountChar(p.name, '\n') == 0
    ensures CountChar(ScorerLine(p), '\n') == 1
  {
    var number := IntToString(p.points);
    IntToStringChars(p.points);
    CountCharAbsent(number, '\n');
    CountCharAbsent(" scored ", '\n');
    CountCharAbsent(" points last night!", '\n');
    assert " points last night!\n" == " points last night!" + "\n";
    CountCharAppend(" points last night!", "\n", '\n');
    CountCharAppend(p.name, " scored ", '\n');
    CountCharAppend(p.name + " scored ", number, '\n');
    CountCharAppend(p.name + " scored " + number, " points last night!\n", '\n');
  }

  /** With names free of line breaks, the scorer section holds exactly one line per scorer. */
  lemma {:induction false} OneLinePerScorer(scorers: seq<BoxPlayer>)
    requires forall i :: 0 <= i < |scorers| ==> CountChar(scorers[i].name, '\n') == 0
    ensures CountChar(ScorerLines(scorers), '\n') == |scorers|
  {
    if scorers != [] {
      var p := scorers[|scorers| - 1];
      var prefix := scorers[..|scorers| - 1];
      assert forall i :: 0 <= i < |prefix| ==> prefix[i] == scorers[i];
      OneLinePerScorer(prefix);
      ScorerLineBreaks(p);
      CountCharAppend(ScorerLines(prefix), ScorerLine(p), '\n');
    }
  }

  /** The alert opens with its header and closes with the footer, whatever the scorers. */
  lemma TextEmailFrame(scorers: seq<BoxPlayer>, gameDate: string)
    ensures Header(gameDate) <= TextEmail(scorers, gameDate)
    ensures TextEmail(scorers, gameDate)[|TextEmail(scorers, gameDate)| - |FOOTER|..] == FOOTER
  {
  }

  /** `load_config`: a missing or unreadable file disables email. */
  function LoadConfig(file: Stored<Config>): (c: Config)
    ensures file.Present? ==> c == file.doc
    ensures !file.Present? ==> !EmailEnabled(c)
  {
    match file
    case Present(c) => c
    case _ => Config(Some(EmailSection(Some(false))))
  }

  predicate EmailEnabled(c: Config)
  {
    c.email.GetOr(EmailSection(None)).enabled.GetOr(false)
  }

  /**
   * `send_email`: returns false without trying when email is disabled;
   * otherwise `delivered` is the outcome of the SMTP session (false on any exception).
   */
  function SendEmail(config: Config, delivered: bool): (sent: bool)
    ensures sent <==> EmailEnabled(config) && delivered
  {
    if !EmailEnabled(config) then false else delivered
  }

  /**
   * `main`: find yesterday's scorers; `email` is `None` when no email is
   * attempted, otherwise what `send_email` returned.
   */
  method RunDailyCheck(configFile: Stored<Config>, events: seq<Event>, summary: string -> seq<TeamBox>, delivered: bool)
    returns (scorers: seq<BoxPlayer>, email: Option<bool>)
    ensures scorers == FiftyPointScorers(events, summary)
    ensures email.Some? <==> scorers != []
    ensures email.Some? ==> email.value == (EmailEnabled(LoadConfig(configFile)) && delivered)
  {
    var config := LoadConfig(configFile);
    scorers := FindFiftyPointScorers(events, summary);
    if scorers != [] {
      var sent := SendEmail(config, delivered);
      email := Some(sent);
    } else {
      email := None;
    }
  }
}
