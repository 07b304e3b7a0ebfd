/**
 * `SubscriberManager` of `manage_subscribers.py`: adds a subscriber unless
 * the address is already present (ignoring case), removes by address
 * (ignoring case) or by unsubscribe token, and saves `emails.json` only
 * when the list changed.
 *
 * The file is the manager's state. The clock reading for `subscribed_date`
 * and the generated token are parameters.
 */
module Subscribers {
  import opened Wrappers
  import opened Text
  import opened EmailsFile

  /** How a command ends: the boolean it returns, or an exception (an unreadable file, or no `subscribers` key). */
  datatype Outcome = Returned(value: bool) | Raised

  /** `load_data`: a missing file reads as empty lists; an unreadable one raises (`None`). */
  function LoadData(file: Stored<EmailsDoc>): Option<EmailsDoc>
  {
    match file
    case Missing => Some(EmailsDoc(Some([]), Some([])))
    case Unreadable => None
    case Present(doc) => Some(doc)
  }

  /** The subscriber list of a loaded file, when there is one to work on. */
  function ListOf(file: Stored<EmailsDoc>): Option<seq<Subscriber>>
  {
    match LoadData(file)
    case None => None
    case Some(doc) => doc.subscribers
  }

  /** A missing file is an empty list with an empty ledger. */
  lemma MissingFileIsEmpty()
    ensures LoadData(Missing) == Some(EmailsDoc(Some([]), Some([])))
    ensures ListOf(Missing) == Some([])
  {
  }

  predicate SameAddress(a: string, b: string)
  {
    Lower(a) == Lower(b)
  }

  predicate HasAddress(subs: seq<Subscriber>, email: string)
  {
    exists i :: 0 <= i < |subs| && SameAddress(subs[i].email, email)
  }

  /** The duplicate check of `add_subscriber`: a scan that stops at the first match. */
  method FindAddress(subs: seq<Subscriber>, email: string) returns (found: bool)
    ensures found <==> HasAddress(subs, email)
  {
    var target := Lower(email);
    for i := 0 to |subs|
      invariant forall j :: 0 <= j < i ==> !SameAddress(subs[j].email, email)
    {
      if Lower(subs[i].email) == target {
        return true;
      }
    }
    return false;
  }

  /** `[s for s in subscribers if s['email'].lower() != email.lower()]`. */
  function WithoutAddress(subs: seq<Subscriber>, email: string): seq<Subscriber>
  {
    if subs == [] then []
    else (if SameAddress(subs[0].email, email) then [] else [subs[0]]) + WithoutAddress(subs[1..], email)
  }

  /** The entries kept are exactly those with another address. */
  lemma {:induction false} WithoutAddressExact(subs: seq<Subscriber>, email: string, s: Subscriber)
    ensures s in WithoutAddress(subs, email) <==> s in subs && !SameAddress(s.email, email)
  {
    if subs != [] {
      WithoutAddressExact(subs[1..], email, s);
      assert subs == [subs[0]] + subs[1..];
    }
  }

  /** Removal keeps the survivors in their order: removing from a concatenation removes from each part. */
  lemma {:induction false} WithoutAddressAppend(a: seq<Subscriber>, b: seq<Subscriber>, email: string)
    ensures WithoutAddress(a + b, email) == WithoutAddress(a, email) + WithoutAddress(b, email)
  {
    if a != [] {
      assert (a + b)[1..] == a[1..] + b;
      WithoutAddressAppend(a[1..], b, email);
    } else {
      assert a + b == b;
    }
  }

  /** The list shrinks exactly when some entry has the address; otherwise it is unchanged. */
  lemma {:induction false} WithoutAddressShrinks(subs: seq<Subscriber>, email: string)
    ensures |WithoutAddress(subs, email)| <= |subs|
    ensures |WithoutAddress(subs, email)| < |subs| <==> HasAddress(subs, email)
    ensures !HasAddress(subs, email) ==> WithoutAddress(subs, email) == subs
  {
    if subs != [] {
      WithoutAddressShrinks(subs[1..], email);
      if HasAddress(subs[1..], email) {
        var i :| 0 <= i < |subs[1..]| && SameAddress(subs[1..][i].email, email);
        assert SameAddress(subs[i + 1].email, email);
      }
      if HasAddress(subs, email) && !SameAddress(subs[0].email, email) {
        var i :| 0 <= i < |subs| && SameAddress(subs[i].email, email);
        assert subs[1..][i - 1] == subs[i];
      }
      assert subs == [subs[0]] + subs[1..];
    }
  }

  /** After a removal no entry has the address, so removing it again changes nothing. */
  lemma WithoutAddressIdempotent(subs: seq<Subscriber>, email: string)
    ensures !HasAddress(WithoutAddress(subs, email), email)
    ensures WithoutAddress(WithoutAddress(subs, email), email) == WithoutAddress(subs, email)
  {
    var rest := WithoutAddress(subs, email);
    forall i | 0 <= i < |rest|
      ensures !SameAddress(rest[i].email, email)
    {
      WithoutAddressExact(subs, email, rest[i]);
    }
    WithoutAddressShrinks(rest, email);
  }

  predicate HasToken(s: Subscriber, token: string)
  {
    s.token == Some(token)
  }

  /** The address of the first entry carrying the token, which `remove_by_token` reports. */
  function FirstWithToken(subs: seq<Subscriber>, token: string): Option<string>
  {
    if subs == [] then None
    else if HasToken(subs[0], token) then Some(subs[0].email)
    else FirstWithToken(subs[1..], token)
  }

  /** The reported address is that of the first entry with the token; there is one exactly when some entry has it. */
  lemma {:induction false} FirstWithTokenSpec(subs: seq<Subscriber>, token: string)
    ensures FirstWithToken(subs, token).Some? <==> exists i :: 0 <= i < |subs| && HasToken(subs[i], token)
    ensures FirstWithToken(subs, token).Some? ==>
      exists i :: 0 <= i < |subs| && HasToken(subs[i], token) && subs[i].email == FirstWithToken(subs, token).value
        && forall j :: 0 <= j < i ==> !HasToken(subs[j], token)
  {
    if subs != [] && !HasToken(subs[0], token) {
      FirstWithTokenSpec(subs[1..], token);
      if FirstWithToken(subs[1..], token).Some? {
        var i :| 0 <= i < |subs[1..]| && HasToken(subs[1..][i], token) && subs[1..][i].email == FirstWithToken(subs, token).value
          && forall j :: 0 <= j < i ==> !HasToken(subs[1..][j], token);
        assert subs[i + 1] == subs[1..][i];
        forall j | 0 <= j < i + 1
          ensures !HasToken(subs[j], token)
        {
          if j > 0 {
            assert subs[j] == subs[1..][j - 1];
          }
        }
      }
      if exists i :: 0 <= i < |subs| && HasToken(subs[i], token) {
        var i :| 0 <= i < |subs| && HasToken(subs[i], token);
        assert subs[1..][i - 1] == subs[i];
      }
    }
  }

  /** The search loop of `remove_by_token`, with its `break`. */
  method FindToken(subs: seq<Subscriber>, token: string) returns (email: Option<string>)
    ensures email == FirstWithToken(subs, token)
  {
    email := None;
    var i := 0;
    while i < |subs|
      invariant 0 <= i <= |subs|
      invariant FirstWithToken(subs, token) == FirstWithToken(subs[i..], token)
    {
      if HasToken(subs[i], token) {
        email := Some(subs[i].email);
        break;
      }
      assert subs[i..][1..] == subs[i + 1..];
      i := i + 1;
    }
  }

  /** `[s for s in subscribers if s.get('unsubscribe_token') != token]`. */
  function WithoutToken(subs: seq<Subscriber>, token: string): seq<Subscriber>
  {
    if subs == [] then []
    else (if HasToken(subs[0], token) then [] else [subs[0]]) + WithoutToken(subs[1..], token)
  }

  /** Every entry carrying the token goes, every other entry stays. */
  lemma {:induction false} WithoutTokenExact(subs: seq<Subscriber>, token: string, s: Subscriber)
    ensures s in WithoutToken(subs, token) <==> s in subs && !HasToken(s, token)
  {
    if subs != [] {
      WithoutTokenExact(subs[1..], token, s);
      assert subs == [subs[0]] + subs[1..];
    }
  }

  /** The list shrinks exactly when an entry carries the token, that is when an address is reported. */
  lemma {:induction false} WithoutTokenShrinks(subs: seq<Subscriber>, token: string)
    ensures |WithoutToken(subs, token)| <= |subs|
    ensures |WithoutToken(subs, token)| < |subs| <==> FirstWithToken(subs, token).Some?
  {
    if subs != [] {
      WithoutTokenShrinks(subs[1..], token);
    }
  }

  /** The file after `add_subscriber`: the new entry appended when the address is new. */
  function AddedFile(file: Stored<EmailsDoc>, email: string, token: string, now: string): Stored<EmailsDoc>
  {
    match LoadData(file)
    case None => file
    case Some(doc) =>
      if doc.subscribers.None? || HasAddress(doc.subscribers.value, email) then file
      else Present(doc.(subscribers := Some(doc.subscribers.value + [Subscriber(email, Some(now), Some(token))])))
  }

  function AddOutcome(file: Stored<EmailsDoc>, email: string): Outcome
  {
    match ListOf(file)
    case None => Raised
    case Some(subs) => Returned(!HasAddress(subs, email))
  }

  /** The file after `remove_subscriber`: rewritten without the address when it was there. */
  function RemovedFile(file: Stored<EmailsDoc>, email: string): Stored<EmailsDoc>
  {
    match LoadData(file)
    case None => file
    case Some(doc) =>
      if doc.subscribers.None? || |WithoutAddress(doc.subscribers.value, email)| == |doc.subscribers.value| then file
      else Present(doc.(subscribers := Some(WithoutAddress(doc.subscribers.value, email))))
  }

  function RemoveOutcome(file: Stored<EmailsDoc>, email: string): Outcome
  {
    match ListOf(file)
    case None => Raised
    case Some(subs) => Returned(|WithoutAddress(subs, email)| < |subs|)
  }

  /** The file after `remove_by_token`: rewritten without the token's entries when there were any. */
  function TokenRemovedFile(file: Stored<EmailsDoc>, token: string): Stored<EmailsDoc>
  {
    match LoadData(file)
    case None => file
    case Some(doc) =>
      if doc.subscribers.None? || |WithoutToken(doc.subscribers.value, token)| == |doc.subscribers.value| then file
      else Present(doc.(subscribers := Some(WithoutToken(doc.subscribers.value, token))))
  }

  function TokenRemoveOutcome(file: Stored<EmailsDoc>, token: string): Outcome
  {
    match ListOf(file)
    case None => Raised
    case Some(subs) => Returned(|WithoutToken(subs, token)| < |subs|)
  }

  class SubscriberManager {
    /** The `emails.json` file. */
    var file: Stored<EmailsDoc>

    constructor (file: Stored<EmailsDoc>)
      ensures this.file == file
    {
      this.file := file;
    }

    /** `add_subscriber`: `now` is `datetime.now().isoformat()`, `token` the new `uuid4`. */
    method AddSubscriber(email: string, token: string, now: string) returns (outcome: Outcome)
      modifies this
      ensures outcome == AddOutcome(old(file), email)
      ensures file == AddedFile(old(file), email, token, now)
    {
      var loaded := LoadData(file);
      if loaded.None? || loaded.value.subscribers.None? {
        return Raised;
      }
      var data := loaded.value;
      var subs := data.subscribers.value;
      var already := FindAddress(subs, email);
      if already {
        return Returned(false);
      }
      var subscriber := Subscriber(email, Some(now), Some(token));
      data := data.(subscribers := Some(subs + [subscriber]));
      file := Present(data);
      return Returned(true);
    }

    /** `remove_subscriber`. */
    method RemoveSubscriber(email: string) returns (outcome: Outcome)
      modifies this
      ensures outcome == RemoveOutcome(old(file), email)
      ensures file == RemovedFile(old(file), email)
    {
      var loaded := LoadData(file);
      if loaded.None? || loaded.value.subscribers.None? {
        return Raised;
      }
      var data := loaded.value;
      var originalCount := |data.subscribers.value|;
      WithoutAddressShrinks(data.subscribers.value, email);
      data := data.(subscribers := Some(WithoutAddress(data.subscribers.value, email)));
      if |data.subscribers.value| < originalCount {
        file := Present(data);
        return Returned(true);
      }
      return Returned(false);
    }

    /** `remove_by_token`; `removed` is the address it reports. */
    method RemoveByToken(token: string) returns (outcome: Outcome, removed: Option<string>)
      modifies this
      ensures outcome == TokenRemoveOutcome(old(file), token)
      ensures file == TokenRemovedFile(old(file), token)
      ensures removed == (match ListOf(old(file)) case None => None case Some(subs) => FirstWithToken(subs, token))
    {
      var loaded := LoadData(file);
      if loaded.None? || loaded.value.subscribers.None? {
        return Raised, None;
      }
      var data := loaded.value;
      var originalCount := |data.subscribers.value|;
      removed := FindToken(data.subscribers.value, token);
      WithoutTokenShrinks(data.subscribers.value, token);
      data := data.(subscribers := Some(WithoutToken(data.subscribers.value, token)));
      if |data.subscribers.value| < originalCount {
        file := Present(data);
        return Returned(true), removed;
      }
      return Returned(false), removed;
    }
  }

  // ---------------------------------------------------------------------------
  // What the commands promise

  /** An address already present, in any letter case, is refused and the file is left alone. */
  lemma AddExistingRefused(file: Stored<EmailsDoc>, email: string, token: string, now: string, subs: seq<Subscriber>, i: int)
    requires ListOf(file) == Some(subs) && 0 <= i < |subs| && Lower(subs[i].email) == Lower(email)
    ensures AddOutcome(file, email) == Returned(false)
    ensures AddedFile(file, email, token, now) == file
  {
    assert HasAddress(subs, email);
  }

  /** A new address is appended as one entry at the end; the earlier entries and the ledger are kept. */
  lemma AddNewAppends(file: Stored<EmailsDoc>, email: string, token: string, now: string, subs: seq<Subscriber>)
    requires ListOf(file) == Some(subs) && !HasAddress(subs, email)
    ensures AddOutcome(file, email) == Returned(true)
    ensures var next := AddedFile(file, email, token, now);
      next.Present? && next.doc.subscribers == Some(subs + [Subscriber(email, Some(now), Some(token))])
      && next.doc.sentAlerts == LoadData(file).value.sentAlerts
  {
  }

  /** Adding the same address twice, even spelt in another case, adds it once. */
  lemma AddTwiceOnce(file: Stored<EmailsDoc>, email: string, again: string, token: string, token2: string, now: string, now2: string)
    requires ListOf(file).Some? && Lower(again) == Lower(email)
    ensures var next := AddedFile(file, email, token, now);
      AddOutcome(next, again) == Returned(false) && AddedFile(next, again, token2, now2) == next
  {
    var subs := ListOf(file).value;
    if !HasAddress(subs, email) {
      var next := AddedFile(file, email, token, now);
      var grown := subs + [Subscriber(email, Some(now), Some(token))];
      assert ListOf(next) == Some(grown);
      assert SameAddress(grown[|subs|].email, again);
    } else {
      var i :| 0 <= i < |subs| && SameAddress(subs[i].email, email);
      assert SameAddress(subs[i].email, again);
    }
  }

  /** Removing by address reports a change, and saves, exactly when the address was there. */
  lemma RemoveReportsChange(file: Stored<EmailsDoc>, email: string, subs: seq<Subscriber>)
    requires ListOf(file) == Some(subs)
    ensures RemoveOutcome(file, email) == Returned(HasAddress(subs, email))
    ensures HasAddress(subs, email) ==>
      RemovedFile(file, email).Present? && RemovedFile(file, email).doc.subscribers == Some(WithoutAddress(subs, email))
    ensures !HasAddress(subs, email) ==> RemovedFile(file, email) == file
  {
    WithoutAddressShrinks(subs, email);
  }

  /** A second identical removal returns False and changes nothing. */
  lemma RemoveTwice(file: Stored<EmailsDoc>, email: string)
    requires ListOf(file).Some?
    ensures var next := RemovedFile(file, email);
      RemoveOutcome(next, email) == Returned(false) && RemovedFile(next, email) == next
  {
    var subs := ListOf(file).value;
    WithoutAddressShrinks(subs, email);
    WithoutAddressIdempotent(subs, email);
    var next := RemovedFile(file, email);
    var rest := ListOf(next).value;
    assert !HasAddress(rest, email);
    WithoutAddressShrinks(rest, email);
  }

  /** Removing by token reports a change, and saves, exactly when some entry carries the token. */
  lemma TokenRemoveReportsChange(file: Stored<EmailsDoc>, token: string, subs: seq<Subscriber>)
    requires ListOf(file) == Some(subs)
    ensures TokenRemoveOutcome(file, token) == Returned(FirstWithToken(subs, token).Some?)
    ensures FirstWithToken(subs, token).Some? ==>
      TokenRemovedFile(file, token).Present? && TokenRemovedFile(file, token).doc.subscribers == Some(WithoutToken(subs, token))
    ensures FirstWithToken(subs, token).None? ==> TokenRemovedFile(file, token) == file
  {
    WithoutTokenShrinks(subs, token);
  }

  /** An unreadable file makes every command raise and stay unsaved. */
  lemma UnreadableRaises(email: string, token: string, now: string)
    ensures AddOutcome(Unreadable, email) == Raised && AddedFile(Unreadable, email, token, now) == Unreadable
    ensures RemoveOutcome(Unreadable, email) == Raised && RemovedFile(Unreadable, email) == Unreadable
    ensures TokenRemoveOutcome(Unreadable, token) == Raised && TokenRemovedFile(Unreadable, token) == Unreadable
  {
  }
}
