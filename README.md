# nba-50-alert, modelled in Dafny

nba-50-alert watches NBA box scores for 50-point games. It is made of four scripts:

- **The daily checker** (`src/nba_50_checker.py`) does four things:
  - it keeps yesterday's games whose status is `STATUS_FINAL`;
  - it reads each game's box score;
  - it keeps the players with 50 points or more;
  - it mails a plain-text alert only when there is at least one such player.
- **The 50+ club generator** (`src/generate_50_club_data.py`) keeps the season's record `50_club.json` up to date. On each run it:
  - picks where to start: one day after `lastCheckedDate` for an incremental scan, or October 15 of the season year for a full scan;
  - collects the 50-point performances of the completed games in that range, each with its opponent;
  - when the scan finds games, merges their performances with the existing scorers, drops repeated `(date, player, points)` keys keeping the first, sorts the result newest first (stable within a day), and writes the current season label, the timestamps and a running `totalGames`;
  - when the scan finds no game, only refreshes `lastCheckedDate` and `lastUpdated` of existing data, which keeps its old `season` label and `totalGames` (so a new season keeps the old label until a game is found); without existing data it writes an empty record for the current season.
- **The alert sender** (`src/send_email_alerts.py`) does five things:
  - it computes each scorer's alert key `date_player_points`;
  - it drops the scorers whose key is already in the `sent_alerts` ledger of `emails.json`;
  - it sends one campaign for the rest;
  - only when the campaign succeeds, it appends their keys to the ledger;
  - it saves this ledger so that each performance is announced once.
- **The subscriber manager** (`src/manage_subscribers.py`) does three things:
  - it adds an address unless it is already present, ignoring case;
  - it removes an address, ignoring case, or removes by unsubscribe token;
  - it saves only when the list changed.

The modules follow that structure:

- Shared modules:
  - `Wrappers`: `Option`, and `Stored`, which stands for a file that is missing, unreadable or present.
  - `Text`: decimal text, `int()`, `str()`, `lower()` and string `<`.
  - `Calendar`: days, `+ timedelta(days=1)`, and `strftime` / `fromisoformat` on `YYYY-MM-DD`.
  - `EspnFeed`: the ESPN box-score shape and the points parsing that both `get_box_score` functions share.
  - `EmailsFile`: the `emails.json` document.
- One module per script:
  - `DailyChecker`;
  - `ClubRecords` (the merge) and `ClubGenerator`;
  - `AlertSender`;
  - `Subscribers`.

Modelling choices:

- **Loops become methods.** Each loop of the scripts is a method over `seq`, proved equal to a specification function.
- **Files are class state.** The files the alert sender and the subscriber manager rewrite are a field of a class: `EmailAlertSender` and `SubscriberManager`. Their methods are proved against a function that gives the next file.
- **The outside world becomes parameters.** These are:
  - the clock: `today`, `nowStamp`, `now`;
  - the ESPN scoreboard: an event list, or a `scan` function for a date range;
  - the ESPN summary of a game id: `summary`;
  - the subscriber count;
  - whether the campaign and the SMTP session succeeded;
  - whether a save worked;
  - the generated unsubscribe token.

The code as written behaves as follows, and the model follows it. Delivery is a single campaign call:

- There is no retry, no backoff and no success-rate threshold.
- There is no freshness window on events.
- There is no check that points are at most 100.

The `emails.json` ledger:

- **Fails open.** An unreadable ledger reads as an empty one, so every scorer is alerted again (`DefaultLedgerSendsAll`).
- **Is not written atomically.**
- **Has its save result ignored.** `send_alerts` reports success even when the ledger could not be saved. When the save fails before the file is emptied, the next run sends the same batch again (`UnsavedCampaignRepeats`).
- **Can raise `KeyError` after the campaign.** When the file has no `sent_alerts` key, the campaign has already gone out when the `KeyError` is raised (`LedgerKeyMissing`).

## Model

| member | source | states |
|---|---|---|
| Calendar.NextDay | src/generate_50_club_data.py:173 | the day after a valid day is valid, later, and the earliest valid day after it |
| Calendar.PrevDay | src/nba_50_checker.py:42 | yesterday is a valid day whose next day is today |
| Calendar.FormatCompact | src/nba_50_checker.py:43 | `%Y%m%d` text is eight digits: the day's year in four, its month in two and its day in two |
| Calendar.NextDayInjective | src/nba_50_checker.py:42 | different days have different next days, so yesterday is a single day |
| Calendar.FormatIso | src/generate_50_club_data.py:263 | `strftime('%Y-%m-%d')`: ten characters with dashes at 4 and 7; `ParseFormatIso` reads it back |
| Calendar.ParseIso | src/generate_50_club_data.py:173 | a date text `fromisoformat` accepts is in range and formats back to the same text |
| Calendar.IsoTextOf | src/generate_50_club_data.py:173 | a `YYYY-MM-DD` text whose fields name a valid day is that day's `%Y-%m-%d` text |
| Calendar.ParseFormatIso | src/generate_50_club_data.py:173 | reading back a `%Y-%m-%d` text written for a day gives that day |
| Text.ParseInt | src/nba_50_checker.py:114 | `int()` on a stat: an optional sign and ASCII digits, else the `ValueError` (`None`); it reads back `str()` by `ParseIntToString` |
| Text.NatToStringDigits | src/send_email_alerts.py:88 | `str()` of a natural number is a non-empty digit string without leading zero whose decimal value is the number |
| Text.ParseIntToString | src/nba_50_checker.py:114 | `int()` reads back what `str()` wrote, negative numbers included |
| Text.IntToStringInjective | src/send_email_alerts.py:88 | different point totals give different texts |
| Text.StrLessTransitive | src/generate_50_club_data.py:257 | the date comparison of the sort is transitive |
| Text.StrLessTotal | src/generate_50_club_data.py:257 | of two different date texts, one is less than the other |
| DailyChecker.YesterdayParam | src/nba_50_checker.py:40-43 | the scoreboard date parameter is eight digits, the `%Y%m%d` text of the day whose next day is today |
| DailyChecker.CompletedGames | src/nba_50_checker.py:63-72 | the STATUS_FINAL filter as a function; characterised both ways by `CompletedGamesExact` |
| DailyChecker.GetGamesForDate | src/nba_50_checker.py:60-74 | the returned games are the completed games of the scoreboard, in order |
| DailyChecker.CompletedGamesExact | src/nba_50_checker.py:63-72 | a game is returned exactly when some event with status `STATUS_FINAL` produced it |
| DailyChecker.CompletedGamesAppend | src/nba_50_checker.py:63-72 | the filter keeps scoreboard order: the games of a concatenation are the concatenated games |
| DailyChecker.MissingStatusExcluded | src/nba_50_checker.py:65-67 | an event without a status is not completed |
| DailyChecker.GetBoxScore | src/nba_50_checker.py:96-124 | the returned players are exactly the rows with parsable points, team by team, group by group |
| DailyChecker.TeamPlayers | src/nba_50_checker.py:105-122 | the players of one team are those of its stat groups, in order |
| DailyChecker.GroupPlayers | src/nba_50_checker.py:106-122 | the players of one stat group are its rows with parsable points, in order |
| EspnFeed.ParsePoints | src/nba_50_checker.py:112-114 | the points of a row: `stats[1]`, `''` as 0, none for short or non-numeric stats; see `RowPointsRead` and `RowEdgeCases` |
| EspnFeed.RowPointsRead | src/nba_50_checker.py:112-120 | a row whose points stat is a number's text contributes one player with those points, its team, and `Unknown` for a missing name |
| EspnFeed.UnknownTeamDefault | src/nba_50_checker.py:102 | a team without an abbreviation reports all its players under `UNK` |
| EspnFeed.RowEdgeCases | src/nba_50_checker.py:112-122 | an empty points stat counts as 0, and a short row, an empty row or a non-numeric stat is skipped |
| EspnFeed.AtLeastFifty | src/nba_50_checker.py:297 | a player is kept exactly when it is in the list and has at least 50 points |
| EspnFeed.AtLeastFiftyAppend | src/nba_50_checker.py:297 | the filter keeps order and distributes over concatenation |
| DailyChecker.GameScorersExact | src/nba_50_checker.py:288-301 | a player is reported exactly when some completed game's box score has them with at least 50 points |
| DailyChecker.NoCompletedGamesNoScorers | src/nba_50_checker.py:275-281 | with no completed game the result is empty |
| DailyChecker.FindFiftyPointScorers | src/nba_50_checker.py:255-310 | the result is the 50-point players of the completed games, game by game, and each has at least 50 points |
| DailyChecker.CreateTextEmail | src/nba_50_checker.py:176-190 | the text is the header, one line per scorer in order, then the fixed footer |
| DailyChecker.OneLinePerScorer | src/nba_50_checker.py:180-181 | with names free of line breaks, the scorer section has exactly one line break per scorer |
| DailyChecker.TextEmailFrame | src/nba_50_checker.py:178-188 | every alert starts with its header and ends with the footer |
| DailyChecker.LoadConfig | src/nba_50_checker.py:26-38 | a readable config is used as it is; a missing or unreadable one disables email |
| DailyChecker.SendEmail | src/nba_50_checker.py:130-136 | it reports sent exactly when email is enabled and the SMTP session succeeded |
| DailyChecker.RunDailyCheck | src/nba_50_checker.py:313-344 | an email is attempted exactly when there is a scorer, and its result is what `send_email` decides |
| ClubGenerator.CurrentSeason | src/generate_50_club_data.py:18-28 | `get_current_season`; its format is stated by `CurrentSeasonFormat` and `SeasonExamples` |
| ClubGenerator.SeasonStartDate | src/generate_50_club_data.py:30-41 | `get_season_start_date`: October 15 of the season's first year; see `SeasonExamples` and `CurrentSeasonFormat` |
| ClubGenerator.CurrentSeasonFormat | src/generate_50_club_data.py:18-28 | the label is the season's first year (the year of its start date), a dash, and the last two digits of the next year |
| ClubGenerator.SeasonExamples | src/generate_50_club_data.py:18-41 | October to September is one season (`2024-25`) starting on October 15 of its first year |
| ClubGenerator.ScanStart | src/generate_50_club_data.py:169-184 | the scan start, or the error of a bad `lastCheckedDate`; its cases are `ScanStartIncremental` and `ScanStartFull` |
| ClubGenerator.ScanStartIncremental | src/generate_50_club_data.py:169-176 | with existing data and a written `lastCheckedDate`, the scan starts one day after it |
| ClubGenerator.ScanStartFull | src/generate_50_club_data.py:169-184 | without data, with `{}`, with a forced scan or without `lastCheckedDate`, the scan starts on the season start |
| ClubGenerator.Opponent | src/generate_50_club_data.py:231 | the away team for a home scorer, else the home team; see `OpponentIsOtherSide` |
| ClubGenerator.OpponentIsOtherSide | src/generate_50_club_data.py:231 | a scorer's opponent is the other team of the game |
| ClubGenerator.GetClubBoxScore | src/generate_50_club_data.py:119-146 | the returned players are exactly the parsable rows with at least 50 points, in box-score order |
| ClubGenerator.FiftyPointRows | src/generate_50_club_data.py:128-144 | the rows of a stat group kept are those whose points parse and reach 50 |
| ClubGenerator.GameEntries | src/generate_50_club_data.py:225-232 | one club entry per 50-point player of a game, in order |
| ClubGenerator.CollectNewScorers | src/generate_50_club_data.py:215-232 | the new entries of the scanned games, game by game |
| ClubGenerator.NewClubScorersFrom | src/generate_50_club_data.py:215-232 | every new entry has at least 50 points and carries its game's date and opponent |
| ClubGenerator.TotalGames | src/generate_50_club_data.py:240-245 | the old `totalGames` (0 when absent) plus the games scanned when data holds `scorers`, else the games scanned; used by `UpdateMerged` |
| ClubGenerator.MergeNewGames | src/generate_50_club_data.py:239-266 | the record after a non-empty scan: merged, deduplicated, sorted scorers and the running game count |
| ClubGenerator.UpdateClubData | src/generate_50_club_data.py:152-268 | the result is the scan-start error, the no-games record or the merged record, as the scan decides |
| ClubGenerator.UpdateNoGamesExisting | src/generate_50_club_data.py:189-196 | with no game, existing data keeps season, count and scorers and only its two dates change |
| ClubGenerator.UpdateNoGamesFresh | src/generate_50_club_data.py:197-205 | with no game and no data, the record is an empty season with zero games |
| ClubGenerator.UpdateMerged | src/generate_50_club_data.py:239-266 | after a scan: keys unique, every old and new key kept, newest first, existing records win, the running count, and new records have at least 50 points |
| ClubGenerator.UpdateThenResume | src/generate_50_club_data.py:263 | after any update, the next incremental run starts the day after the day just checked |
| ClubRecords.FirstOccurrences | src/generate_50_club_data.py:247-254 | the first record of each key, in order; its properties are the `FirstOccurrences*` lemmas below |
| ClubRecords.Dedup | src/generate_50_club_data.py:247-254 | the loop with its `seen` set keeps the first record of each key, in order |
| ClubRecords.FirstOccurrencesUnique | src/generate_50_club_data.py:247-254 | no two kept records share a key |
| ClubRecords.FirstOccurrencesKeys | src/generate_50_club_data.py:247-254 | every key of the input survives |
| ClubRecords.FirstOccurrencesFromInput | src/generate_50_club_data.py:250-254 | every kept record comes from the input |
| ClubRecords.FirstOccurrenceKept | src/generate_50_club_data.py:250-254 | a record whose key did not occur earlier is kept |
| ClubRecords.KeptIsFirstOccurrence | src/generate_50_club_data.py:250-254 | a kept record is the first of the input with its key |
| ClubRecords.FirstOccurrencesPrefix | src/generate_50_club_data.py:250-254 | appending records leaves the records already kept in front |
| ClubRecords.FirstOccurrencesOfUnique | src/generate_50_club_data.py:247-254 | a list without repeated keys comes through unchanged |
| ClubRecords.ExistingWin | src/generate_50_club_data.py:240-254 | on a repeated key, the existing record is kept over the new one |
| ClubRecords.SortByDate | src/generate_50_club_data.py:257 | the sort is a permutation |
| ClubRecords.SortByDateSorted | src/generate_50_club_data.py:257 | the sorted list is newest first |
| ClubRecords.SortByDateStable | src/generate_50_club_data.py:257 | the records of each day keep their input order |
| ClubRecords.SortByDateUnique | src/generate_50_club_data.py:257 | sorting keeps keys unique |
| ClubRecords.MergeScorers | src/generate_50_club_data.py:239-266 | existing then new scorers, deduplicated and sorted; its properties are `MergeScorersSpec` |
| ClubRecords.MergeScorersSpec | src/generate_50_club_data.py:240-257 | the merged list has unique keys, all the keys of both lists, newest-first order, and stable days; it is a permutation of the deduplicated list and existing records win |
| AlertSender.AlertKey | src/send_email_alerts.py:88 | `f"{date}_{player}_{points}"`; it reads back by `AlertKeyDecodes` and tells scorers apart by `AlertKeyInjective` |
| AlertSender.AlertKeyExample | src/send_email_alerts.py:88 | a key is date, underscore, player, underscore, points |
| AlertSender.AlertKeyDecodes | src/send_email_alerts.py:88 | a key reads back: the date is before the first `_`, the points after the last, the player in between |
| AlertSender.AlertKeyInjective | src/send_email_alerts.py:88 | two scorers have the same alert key exactly when they have the same merge key, given dates without `_` |
| AlertSender.GetNewScorers | src/send_email_alerts.py:81-95 | the loop returns the not-yet-alerted scorers with their keys, in club-data order |
| AlertSender.NewScorersExact | src/send_email_alerts.py:83-95 | an entry is pending exactly when it is a scorer with its key and the key is not in the ledger |
| AlertSender.NewScorersAppend | src/send_email_alerts.py:87-93 | the diff keeps order and distributes over concatenation |
| AlertSender.NewScorersAllSent | src/send_email_alerts.py:87-95 | when every key is in the ledger nothing is pending |
| AlertSender.NewScorersEmptyLedger | src/send_email_alerts.py:83-95 | against an empty ledger every scorer is pending |
| AlertSender.NewScorersRecorded | src/send_email_alerts.py:83-95 | once the pending keys are recorded, the same scorers give nothing pending |
| AlertSender.LoadEmailsData | src/send_email_alerts.py:44-54 | a present file loads as it is; a missing or unreadable one loads as `{"sent_alerts": []}`: an empty ledger and no subscriber list |
| AlertSender.SendDecision | src/send_email_alerts.py:225-270 | the outcome of `send_alerts` in the order of its early returns; the lemmas below state each case |
| AlertSender.NextLedgerFile | src/send_email_alerts.py:225-270 | the ledger file after `send_alerts`: rewritten only after a sent campaign with a working save; see `SentCampaignAppends` |
| AlertSender.EmailAlertSender.SendAlerts | src/send_email_alerts.py:225-270 | the outcome follows the early returns in order, and the file changes only after a sent campaign whose save worked, keys appended in order |
| AlertSender.NoClubDataFails | src/send_email_alerts.py:235-237 | without club data the run fails and the ledger is untouched |
| AlertSender.NoSubscribersSkips | src/send_email_alerts.py:243-245 | with zero subscribers the run succeeds and the ledger is untouched |
| AlertSender.AllAlertedSkips | src/send_email_alerts.py:248-252 | when every scorer is alerted the run succeeds without a campaign and the ledger is untouched |
| AlertSender.FailedCampaignKeepsLedger | src/send_email_alerts.py:261-270 | a failed campaign fails the run, unless it returned early, and records nothing |
| AlertSender.SentCampaignAppends | src/send_email_alerts.py:263-267 | a saved campaign appends the batch keys to the old ledger, removing nothing and keeping the subscribers |
| AlertSender.SecondRunSendsNothing | src/send_email_alerts.py:263-267 | after a saved campaign, the same club data gives nothing new |
| AlertSender.UnsavedCampaignRepeats | src/send_email_alerts.py:267 | a failed save still reports success, leaves the file, and the next run sends the same batch |
| AlertSender.DefaultLedgerSendsAll | src/send_email_alerts.py:46-54 | with a missing (first run) or unreadable ledger every scorer is sent, the run ends in a sent campaign, and the save writes a ledger-only document |
| Subscribers.LoadData | src/manage_subscribers.py:16-22 | `load_data`: the default document for a missing file, none for an unreadable one; see `MissingFileIsEmpty` and `UnreadableRaises` |
| Subscribers.MissingFileIsEmpty | src/manage_subscribers.py:18-19 | a missing file reads as empty subscriber and ledger lists |
| Subscribers.FindAddress | src/manage_subscribers.py:34-37 | the scan finds an address exactly when some entry matches it ignoring case |
| Subscribers.WithoutAddress | src/manage_subscribers.py:58 | the comprehension of `remove_subscriber`; characterised by `WithoutAddressExact` and `WithoutAddressShrinks` |
| Subscribers.WithoutAddressExact | src/manage_subscribers.py:58 | the entries kept are exactly those whose address differs ignoring case |
| Subscribers.WithoutAddressAppend | src/manage_subscribers.py:58 | the filter keeps order and distributes over concatenation |
| Subscribers.WithoutAddressShrinks | src/manage_subscribers.py:57-60 | the list shrinks exactly when the address was present |
| Subscribers.WithoutAddressIdempotent | src/manage_subscribers.py:58 | filtering twice is filtering once |
| Subscribers.FirstWithToken | src/manage_subscribers.py:72-80 | the address `remove_by_token` reports; characterised by `FirstWithTokenSpec` |
| Subscribers.FirstWithTokenSpec | src/manage_subscribers.py:75-78 | the reported address is the first carrying the token, and there is one exactly when some entry carries it |
| Subscribers.FindToken | src/manage_subscribers.py:75-78 | the loop with `break` reports that first address |
| Subscribers.WithoutToken | src/manage_subscribers.py:72-80 | the comprehension of `remove_by_token`; characterised by `WithoutTokenExact` and `WithoutTokenShrinks` |
| Subscribers.WithoutTokenExact | src/manage_subscribers.py:80 | the entries kept are exactly those not carrying the token |
| Subscribers.WithoutTokenShrinks | src/manage_subscribers.py:72-82 | the list shrinks exactly when an address is reported |
| Subscribers.SubscriberManager.AddSubscriber | src/manage_subscribers.py:29-51 | the outcome and the next file: a refusal on a present address, else the new entry appended and saved |
| Subscribers.SubscriberManager.RemoveSubscriber | src/manage_subscribers.py:53-66 | the outcome and the next file: saved without the address exactly when it shrank |
| Subscribers.SubscriberManager.RemoveByToken | src/manage_subscribers.py:68-88 | the outcome, the next file and the reported address of the token |
| Subscribers.AddExistingRefused | src/manage_subscribers.py:33-37 | an address present in any case is refused and the file is left alone |
| Subscribers.AddNewAppends | src/manage_subscribers.py:40-51 | a new address is appended as one last entry, keeping the earlier entries and the ledger |
| Subscribers.AddTwiceOnce | src/manage_subscribers.py:33-51 | adding an address twice, in any case, adds it once |
| Subscribers.RemoveReportsChange | src/manage_subscribers.py:57-66 | removal reports and saves a change exactly when the address was there |
| Subscribers.RemoveTwice | src/manage_subscribers.py:57-66 | a second identical removal returns False and changes nothing |
| Subscribers.TokenRemoveReportsChange | src/manage_subscribers.py:72-88 | token removal reports and saves a change exactly when an entry has the token |
| Subscribers.UnreadableRaises | src/manage_subscribers.py:21-22 | an unreadable file makes every command raise without saving |

## Left out

- HTTP requests to ESPN and the EmailOctopus API, SMTP, and MIME message assembly are left out. Their results are parameters: events, `scan`, `summary`, the subscriber count, `campaignOk` and `delivered`.
- `create_html_email`, `create_campaign`'s HTML and subject, and `format_date` are left out. They only render text shown to people.
- `get_subscriber_count` is left out. Its number, 0 on any error, is the `subscriberCount` parameter.
- `load_club_data` and `load_existing_data` are not modelled. Their result is the `club` / `existing` parameter: `None` on a missing or unreadable file, or a document.
- `get_games_for_date_range` is the `scan` parameter. This leaves out its UTC to Eastern shift of minus five hours, its defaults for missing teams, and its error handling.
- Calendar.ParseIso: accepts only the plain `YYYY-MM-DD` form. `fromisoformat` also takes times and other ISO forms, which the files this program writes never hold.
- Text.ParseInt: accepts an optional `+` or `-` sign followed by ASCII digits. `int()` also accepts surrounding whitespace, `_` between digits and non-ASCII decimal digits; the model rejects these. Non-string stat values (the `TypeError` path) are not modelled.
- Text.Lower: folds only ASCII letters. Python's `lower()` folds all of Unicode.
- The several `datetime.now()` readings of one run are modelled as one instant (`today`, `nowStamp`).
- Progress printing, the `processed` counter and `print` output are left out.
- `list_subscribers` and the command-line dispatch and exit codes of all `main` functions are left out. `AlertSender.Succeeded` gives the value that becomes exit status 0. So is the `sys.exit(1)` of `EmailAlertSender.__init__` when `EMAILOCTOPUS_API_KEY` or `EMAILOCTOPUS_LIST_ID` is unset: the model's sender always has its credentials.
- The JSON documents are typed records. JSON `null`, values of other types, and unknown keys are not modelled.
- The scoreboard event's `id`, `name` and `shortName` are assumed present. The `KeyError` the checker raises when one is missing is not modelled.
- Config truthiness: `enabled` is a boolean in the model. Python truthiness of other JSON values is not modelled.
- DailyChecker.CreateTextEmail: the six closing `+=` statements are one append of `FOOTER`, their concatenation.
- Scorer names with line breaks: `OneLinePerScorer` assumes names have none.
- ClubGenerator.ScanStart: a `lastCheckedDate` of 9999-12-31 overflows in `datetime`. The model returns the same `ScanStartError` as an unparsable date.
- AlertSender.NextLedgerFile: `saveOk == false` stands for a save that fails before `open(..., 'w')` empties the file, which then keeps its old content. A failure inside `json.dump` leaves an empty or partial file instead; the next run reads it as unreadable and resends every scorer. The model does not represent that partial file.
- Subscribers.SubscriberManager.AddSubscriber: assumes the save succeeds. `save_data` has no `try`, so a failed write raises out of `add_subscriber` after the list was changed in memory; the model returns `Returned(true)` with the new file.
- Subscribers.SubscriberManager.RemoveSubscriber: assumes the save succeeds, for the same reason; a failed write raises out of `remove_subscriber`, which the model does not capture.
- Subscribers.SubscriberManager.RemoveByToken: assumes the save succeeds, for the same reason; a failed write raises out of `remove_by_token`, which the model does not capture.

