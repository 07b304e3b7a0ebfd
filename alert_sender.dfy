/**
 * `EmailAlertSender` of `send_email_alerts.py`: it reads the season's
 * 50-point scorers, drops those whose alert key the `emails.json` ledger
 * already holds, sends one campaign for the rest, and on success appends
 * their keys to the ledger, so that each performance is announced once.
 *
 * The ledger file is the sender's state. The club data load, the
 * subscriber count, the campaign call and the save are inputs: their
 * results are parameters.
 */
module AlertSender {
  import opened Wrappers
  import opened Text
  import opened ClubRecords
  import opened EmailsFile

  /** An entry of `new_scorers`: the scorer and its alert key. */
  datatype PendingAlert = PendingAlert(alertKey: string, scorer: Scorer)

  /** How `send_alerts` ends. `LedgerKeyMissing` is the `KeyError` raised after the campaign when the file has no `sent_alerts`. */
  datatype SendOutcome =
    | NoClubData
    | NoSubscribers
    | NothingNew
    | CampaignFailed(batch: seq<PendingAlert>)
    | CampaignSent(batch: seq<PendingAlert>)
    | LedgerKeyMissing(batch: seq<PendingAlert>)

  /** The value `send_alerts` returns, which `main` turns into exit status 0; an exception exits non-zero. */
  predicate Succeeded(o: SendOutcome)
  {
    o.NoSubscribers? || o.NothingNew? || o.CampaignSent?
  }

  /** `f"{date}_{player}_{points}"`. */
  function AlertKey(s: Scorer): string
  {
    s.date + "_" + s.player + "_" + IntToString(s.points)
  }

  /** A worked example of the key format. */
  lemma AlertKeyExample(team: string, opponent: string)
    ensures AlertKey(Scorer("2024-01-10", "A. Player", team, 50, opponent)) == "2024-01-10_A. Player_50"
  {
    assert IntToString(50) == "50";
  }

  /** The text before the first `_`. */
  function BeforeSeparator(s: string): string
  {
    if s == [] || s[0] == '_' then [] else [s[0]] + BeforeSeparator(s[1..])
  }

  /** The text after the last `_`. */
  function AfterSeparator(s: string): string
  {
    if s == [] || s[|s| - 1] == '_' then [] else AfterSeparator(s[..|s| - 1]) + [s[|s| - 1]]
  }

  lemma {:induction false} BeforeSeparatorOf(x: string, rest: string)
    requires '_' !in x
    ensures BeforeSeparator(x + "_" + rest) == x
  {
    if x != [] {
      assert (x + "_" + rest)[1..] == x[1..] + "_" + rest;
      BeforeSeparatorOf(x[1..], rest);
      assert x == [x[0]] + x[1..];
    }
  }

  lemma {:induction false} AfterSeparatorOf(rest: string, x: string)
    requires '_' !in x
    ensures AfterSeparator(rest + "_" + x) == x
  {
    if x != [] {
      var y := x[..|x| - 1];
      assert (rest + "_" + x)[..|rest + "_" + x| - 1] == rest + "_" + y;
      AfterSeparatorOf(rest, y);
      assert x == y + [x[|x| - 1]];
    }
  }

  lemma NoSeparatorInNumber(i: int)
    ensures '_' !in IntToString(i)
  {
    IntToStringChars(i);
  }

  /** A key reads back: the date before the first `_`, the points after the last, the player in between. */
  lemma AlertKeyDecodes(s: Scorer)
    requires '_' !in s.date
    ensures var k := AlertKey(s);
      BeforeSeparator(k) == s.date
      && AfterSeparator(k) == IntToString(s.points)
      && ParseInt(AfterSeparator(k)) == Some(s.points)
      && k[|s.date| + 1..|k| - |AfterSeparator(k)| - 1] == s.player
  {
    var p := IntToString(s.points);
    var k := AlertKey(s);
    assert k == s.date + "_" + (s.player + "_" + p);
    BeforeSeparatorOf(s.date, s.player + "_" + p);
    NoSeparatorInNumber(s.points);
    AfterSeparatorOf(s.date + "_" + s.player, p);
    ParseIntToString(s.points);
  }

  /**
   * Alert keys tell scorers apart exactly as the merge's duplicate key does,
   * as long as dates hold no `_` (`YYYY-MM-DD` does not); player names may.
   */
  lemma AlertKeyInjective(a: Scorer, b: Scorer)
    requires '_' !in a.date && '_' !in b.date
    ensures AlertKey(a) == AlertKey(b) <==> KeyOf(a) == KeyOf(b)
  {
    if AlertKey(a) == AlertKey(b) {
      AlertKeyDecodes(a);
      AlertKeyDecodes(b);
    }
  }

  /** `set(emails_data.get('sent_alerts', []))`. */
  function SentSet(doc: EmailsDoc): set<string>
  {
    set k | k in doc.sentAlerts.GetOr([])
  }

  /** The scorers not yet alerted, in club-data order, each with its key. */
  function NewScorers(scorers: seq<Scorer>, sent: set<string>): seq<PendingAlert>
  {
    if scorers == [] then []
    else
      var s := scorers[|scorers| - 1];
      NewScorers(scorers[..|scorers| - 1], sent) + (if AlertKey(s) !in sent then [PendingAlert(AlertKey(s), s)] else [])
  }

  /** Exactly the scorers whose key is not in the ledger come out, each paired with its own key. */
  lemma {:induction false} NewScorersExact(scorers: seq<Scorer>, sent: set<string>, p: PendingAlert)
    ensures p in NewScorers(scorers, sent) <==> p.scorer in scorers && p.alertKey == AlertKey(p.scorer) && p.alertKey !in sent
  {
    if scorers != [] {
      var prefix := scorers[..|scorers| - 1];
      NewScorersExact(prefix, sent, p);
      assert scorers == prefix + [scorers[|scorers| - 1]];
    }
  }

  /** The diff goes scorer by scorer, so order is kept: the diff of a concatenation is the concatenation of the diffs. */
  lemma {:induction false} NewScorersAppend(a: seq<Scorer>, b: seq<Scorer>, sent: set<string>)
    ensures NewScorers(a + b, sent) == NewScorers(a, sent) + NewScorers(b, sent)
  {
    if b == [] {
      assert a + b == a;
    } else {
      var b' := b[..|b| - 1];
      assert (a + b)[..|a + b| - 1] == a + b';
      NewScorersAppend(a, b', sent);
    }
  }

  /** With every key already in the ledger there is nothing to send. */
  lemma {:induction false} NewScorersAllSent(scorers: seq<Scorer>, sent: set<string>)
    requires forall i :: 0 <= i < |scorers| ==> AlertKey(scorers[i]) in sent
    ensures NewScorers(scorers, sent) == []
  {
    if scorers != [] {
      NewScorersAllSent(scorers[..|scorers| - 1], sent);
    }
  }

  /** With an empty ledger every scorer is new, in order. */
  lemma {:induction false} NewScorersEmptyLedger(scorers: seq<Scorer>)
    ensures |NewScorers(scorers, {})| == |scorers|
    ensures forall i :: 0 <= i < |scorers| ==> NewScorers(scorers, {})[i] == PendingAlert(AlertKey(scorers[i]), scorers[i])
  {
    if scorers != [] {
      var prefix := scorers[..|scorers| - 1];
      var last := scorers[|scorers| - 1];
      NewScorersEmptyLedger(prefix);
      assert NewScorers(scorers, {}) == NewScorers(prefix, {}) + [PendingAlert(AlertKey(last), last)];
      forall i | 0 <= i < |scorers|
        ensures NewScorers(scorers, {})[i] == PendingAlert(AlertKey(scorers[i]), scorers[i])
      {
        if i < |prefix| {
          assert scorers[i] == prefix[i];
        }
      }
    }
  }

  /** The keys of a batch, in order. */
  function Keys(batch: seq<PendingAlert>): seq<string>
  {
    if batch == [] then [] else Keys(batch[..|batch| - 1]) + [batch[|batch| - 1].alertKey]
  }

  lemma {:induction false} KeysMembership(batch: seq<PendingAlert>, p: PendingAlert)
    requires p in batch
    ensures p.alertKey in Keys(batch)
  {
    if p != batch[|batch| - 1] {
      KeysMembership(batch[..|batch| - 1], p);
    }
  }

  /** Once a diff's keys are recorded, the same scorers give nothing new. */
  lemma NewScorersRecorded(scorers: seq<Scorer>, sent: set<string>, recorded: set<string>)
    requires forall k :: k in Keys(NewScorers(scorers, sent)) ==> k in recorded
    ensures NewScorers(scorers, sent + recorded) == []
  {
    forall i | 0 <= i < |scorers|
      ensures AlertKey(scorers[i]) in sent + recorded
    {
      var s := scorers[i];
      if AlertKey(s) !in sent {
        NewScorersExact(scorers, sent, PendingAlert(AlertKey(s), s));
        KeysMembership(NewScorers(scorers, sent), PendingAlert(AlertKey(s), s));
      }
    }
    NewScorersAllSent(scorers, sent + recorded);
  }

  /** The loop of `get_new_scorers`. */
  method GetNewScorers(club: ClubData, emails: EmailsDoc) returns (pending: seq<PendingAlert>)
    ensures pending == NewScorers(club.scorers.GetOr([]), SentSet(emails))
  {
    var sent := SentSet(emails);
    var scorers := club.scorers.GetOr([]);
    pending := [];
    var i := 0;
    while i < |scorers|
      invariant 0 <= i <= |scorers|
      invariant pending == NewScorers(scorers[..i], sent)
    {
      var scorer := scorers[i];
      var key := AlertKey(scorer);
      assert scorers[..i + 1][..i] == scorers[..i];
      if key !in sent {
        pending := pending + [PendingAlert(key, scorer)];
      }
      i := i + 1;
    }
    assert scorers[..i] == scorers;
  }

  /** `load_emails_data`: a missing or unreadable file reads as a ledger with no alert sent. */
  function LoadEmailsData(file: Stored<EmailsDoc>): (doc: EmailsDoc)
    ensures file.Present? ==> doc == file.doc
    ensures !file.Present? ==> SentSet(doc) == {} && doc.sentAlerts == Some([]) && doc.subscribers.None?
  {
    match file
    case Present(d) => d
    case _ => EmailsDoc(None, Some([]))
  }

  /** The decision of `send_alerts`, in the order of its early returns. */
  function SendDecision(file: Stored<EmailsDoc>, club: Option<ClubData>, subscriberCount: int, campaignOk: bool): SendOutcome
  {
    var emails := LoadEmailsData(file);
    if !IsTruthy(club) then NoClubData
    else if subscriberCount == 0 then NoSubscribers
    else
      var batch := NewScorers(club.value.scorers.GetOr([]), SentSet(emails));
      if batch == [] then NothingNew
      else if !campaignOk then CampaignFailed(batch)
      else if emails.sentAlerts.None? then LedgerKeyMissing(batch)
      else CampaignSent(batch)
  }

  /** The ledger file after `send_alerts`: rewritten, with the batch's keys appended, only after a sent campaign and a save that worked. */
  function NextLedgerFile(file: Stored<EmailsDoc>, club: Option<ClubData>, subscriberCount: int, campaignOk: bool, saveOk: bool): Stored<EmailsDoc>
  {
    var o := SendDecision(file, club, subscriberCount, campaignOk);
    var emails := LoadEmailsData(file);
    if o.CampaignSent? && saveOk then Present(emails.(sentAlerts := Some(emails.sentAlerts.value + Keys(o.batch))))
    else file
  }

  class EmailAlertSender {
    /** The `emails.json` file as the sender finds it. */
    var emailsFile: Stored<EmailsDoc>

    constructor (emailsFile: Stored<EmailsDoc>)
      ensures this.emailsFile == emailsFile
    {
      this.emailsFile := emailsFile;
    }

    /**
     * `send_alerts`: `club` is what `load_club_data` returned, `subscriberCount`
     * what the list reports, `campaignOk` whether `create_campaign` succeeded,
     * `saveOk` whether the file could be written.
     */
    method SendAlerts(club: Option<ClubData>, subscriberCount: int, campaignOk: bool, saveOk: bool) returns (outcome: SendOutcome)
      modifies this
      ensures outcome == SendDecision(old(emailsFile), club, subscriberCount, campaignOk)
      ensures emailsFile == NextLedgerFile(old(emailsFile), club, subscriberCount, campaignOk, saveOk)
    {
      var emails := LoadEmailsData(emailsFile);
      if !IsTruthy(club) {
        return NoClubData;
      }
      if subscriberCount == 0 {
        return NoSubscribers;
      }
      var batch := GetNewScorers(club.value, emails);
      if batch == [] {
        return NothingNew;
      }
      if !campaignOk {
        return CampaignFailed(batch);
      }
      if emails.sentAlerts.None? {
        return LedgerKeyMissing(batch);
      }
      var ledger := emails.sentAlerts.value;
      var i := 0;
      while i < |batch|
        invariant 0 <= i <= |batch|
        invariant ledger == emails.sentAlerts.value + Keys(batch[..i])
        invariant emailsFile == old(emailsFile)
      {
        AppendAssoc(emails.sentAlerts.value, Keys(batch[..i]), [batch[i].alertKey]);
        ledger := ledger + [batch[i].alertKey];
        assert batch[..i + 1][..i] == batch[..i];
        i := i + 1;
      }
      assert batch[..i] == batch;
      assert SendDecision(old(emailsFile), club, subscriberCount, campaignOk) == CampaignSent(batch);
      emails := emails.(sentAlerts := Some(ledger));
      if saveOk {
        emailsFile := Present(emails);
      }
      return CampaignSent(batch);
    }
  }

  // ---------------------------------------------------------------------------
  // What a run promises

  /** Without club data the run fails and touches nothing. */
  lemma NoClubDataFails(file: Stored<EmailsDoc>, club: Option<ClubData>, count: int, campaignOk: bool, saveOk: bool)
    requires !IsTruthy(club)
    ensures SendDecision(file, club, count, campaignOk) == NoClubData
    ensures !Succeeded(SendDecision(file, club, count, campaignOk))
    ensures NextLedgerFile(file, club, count, campaignOk, saveOk) == file
  {
  }

  /** With no subscriber the run succeeds before any diff and leaves the ledger alone. */
  lemma NoSubscribersSkips(file: Stored<EmailsDoc>, club: Option<ClubData>, campaignOk: bool, saveOk: bool)
    requires IsTruthy(club)
    ensures SendDecision(file, club, 0, campaignOk) == NoSubscribers
    ensures Succeeded(SendDecision(file, club, 0, campaignOk))
    ensures NextLedgerFile(file, club, 0, campaignOk, saveOk) == file
  {
  }

  /** When every scorer is already in the ledger the run succeeds with no campaign and no save. */
  lemma AllAlertedSkips(file: Stored<EmailsDoc>, club: Option<ClubData>, count: int, campaignOk: bool, saveOk: bool)
    requires IsTruthy(club) && count != 0
    requires var scorers := club.value.scorers.GetOr([]);
      forall i :: 0 <= i < |scorers| ==> AlertKey(scorers[i]) in SentSet(LoadEmailsData(file))
    ensures SendDecision(file, club, count, campaignOk) == NothingNew
    ensures NextLedgerFile(file, club, count, campaignOk, saveOk) == file
  {
    NewScorersAllSent(club.value.scorers.GetOr([]), SentSet(LoadEmailsData(file)));
  }

  /** A failed campaign fails the run and records nothing. */
  lemma FailedCampaignKeepsLedger(file: Stored<EmailsDoc>, club: Option<ClubData>, count: int, saveOk: bool)
    ensures !Succeeded(SendDecision(file, club, count, false)) || SendDecision(file, club, count, false) in {NoSubscribers, NothingNew}
    ensures NextLedgerFile(file, club, count, false, saveOk) == file
  {
  }

  /**
   * A sent campaign that is saved appends the batch's keys, in order, to the
   * old ledger: nothing is removed and the subscriber list is untouched.
   */
  lemma SentCampaignAppends(file: Stored<EmailsDoc>, club: Option<ClubData>, count: int)
    requires SendDecision(file, club, count, true).CampaignSent?
    ensures var before := LoadEmailsData(file);
      var next := NextLedgerFile(file, club, count, true, true);
      next.Present?
      && next.doc.sentAlerts == Some(before.sentAlerts.value + Keys(SendDecision(file, club, count, true).batch))
      && before.sentAlerts.value <= next.doc.sentAlerts.value
      && next.doc.subscribers == before.subscribers
  {
  }

  /** Notify once: after a saved campaign, the same club data gives nothing new to send. */
  lemma SecondRunSendsNothing(file: Stored<EmailsDoc>, club: Option<ClubData>, count: int, campaignOk: bool)
    requires SendDecision(file, club, count, true).CampaignSent?
    ensures SendDecision(NextLedgerFile(file, club, count, true, true), club, count, campaignOk) == NothingNew
  {
    var emails := LoadEmailsData(file);
    var scorers := club.value.scorers.GetOr([]);
    var batch := NewScorers(scorers, SentSet(emails));
    var next := NextLedgerFile(file, club, count, true, true);
    var ledger := emails.sentAlerts.value + Keys(batch);
    assert SentSet(next.doc) == SentSet(emails) + (set k | k in Keys(batch));
    NewScorersRecorded(scorers, SentSet(emails), set k | k in Keys(batch));
  }

  /**
   * The save result is ignored: a campaign whose save fails still reports
   * success, the ledger stays as it was, and the next run sends the same batch.
   * (`saveOk` false is a save that fails before the file is emptied.)
   */
  lemma UnsavedCampaignRepeats(file: Stored<EmailsDoc>, club: Option<ClubData>, count: int)
    requires SendDecision(file, club, count, true).CampaignSent?
    ensures Succeeded(SendDecision(file, club, count, true))
    ensures NextLedgerFile(file, club, count, true, false) == file
    ensures SendDecision(NextLedgerFile(file, club, count, true, false), club, count, true) == SendDecision(file, club, count, true)
  {
  }

  /**
   * A ledger file that is missing (the first run) or unreadable reads as
   * `{"sent_alerts": []}`: every scorer is alerted, the append cannot raise,
   * and the save then writes a ledger-only document, without `subscribers`.
   */
  lemma DefaultLedgerSendsAll(file: Stored<EmailsDoc>, club: Option<ClubData>, count: int)
    requires !file.Present?
    requires IsTruthy(club) && count != 0 && club.value.scorers.GetOr([]) != []
    ensures var o := SendDecision(file, club, count, true);
      o.CampaignSent? && |o.batch| == |club.value.scorers.value|
      && NextLedgerFile(file, club, count, true, true) == Present(EmailsDoc(None, Some(Keys(o.batch))))
  {
    NewScorersEmptyLedger(club.value.scorers.value);
    assert [] + Keys(SendDecision(file, club, count, true).batch) == Keys(SendDecision(file, club, count, true).batch);
  }
}
