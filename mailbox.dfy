/**
 * Choosing the email to answer (`fetch_latest_email` in app.py).
 *
 * The Gmail calls are inputs: the result of `messages().list` is a sequence of
 * listed ids, or `None` when the call raised `HttpError`; each listed id carries
 * the result of its `messages().get` call, or `None` when that call raised.
 */
module Mailbox {
  import opened Wrappers
  import opened Text

  /** The `From` and `Subject` headers and the optional `snippet` of one message. */
  datatype Metadata = Metadata(sender: string, subject: string, snippet: Option<string>)

  /** One listed unread message: its id and the outcome of fetching its metadata. */
  datatype Listed = Listed(id: string, metadata: Option<Metadata>)

  /** The `{id, from, subject, body}` record handed to the rest of the application. */
  datatype EmailData = EmailData(id: string, from: string, subject: string, body: string)

  /** Substrings that disqualify a sender address. */
  const Blacklist: seq<string> := [
    "@bizbuysell.com", "noreply@", "newsletter@", "support@", "sales@",
    "offers@", "alerts@", "mumesh8080@gmail.com", "donotreply@"
  ]

  /** `any(b in sender for b in blacklist)`. */
  function IsBlacklisted(sender: string, blacklist: seq<string>): (r: bool)
    ensures r <==> exists k :: 0 <= k < |blacklist| && Contains(sender, blacklist[k])
  {
    if blacklist == [] then false
    else Contains(sender, blacklist[0]) || IsBlacklisted(sender, blacklist[1..])
  }

  /** The returned record: the listed id, the `From` and `Subject` headers, and the snippet or `''`. */
  function ToEmailData(id: string, m: Metadata): (e: EmailData)
    ensures e.id == id && e.from == m.sender && e.subject == m.subject
    ensures e.body == if m.snippet.Some? then m.snippet.value else ""
  {
    EmailData(id, m.sender, m.subject, m.snippet.GetOr(""))
  }

  /** The loop passes over this entry with `continue`. */
  predicate Skipped(e: Listed, sent: set<string>, blacklist: seq<string>) {
    e.id in sent || (e.metadata.Some? && IsBlacklisted(e.metadata.value.sender, blacklist))
  }

  /** The loop returns this entry. */
  predicate Selectable(e: Listed, sent: set<string>, blacklist: seq<string>) {
    e.id !in sent && e.metadata.Some? && !IsBlacklisted(e.metadata.value.sender, blacklist)
  }

  /** Every entry in `entries[i..k]` is skipped. */
  ghost predicate SkippedBetween(entries: seq<Listed>, sent: set<string>, blacklist: seq<string>, i: int, k: int)
    requires 0 <= i <= k <= |entries|
  {
    forall j :: i <= j < k ==> Skipped(entries[j], sent, blacklist)
  }

  /** How a scan of the listed messages ends. */
  datatype ScanOutcome = Found(email: EmailData) | Exhausted | GetFailed

  /**
   * The scan of `entries` from position `i` on, as the loop of `fetch_latest_email` performs it.
   * Whatever it finds was not handled and has a sender that is not blacklisted.
   */
  function ScanFrom(entries: seq<Listed>, sent: set<string>, blacklist: seq<string>, i: nat): (r: ScanOutcome)
    requires i <= |entries|
    ensures r.Found? ==> r.email.id !in sent && !IsBlacklisted(r.email.from, blacklist)
    decreases |entries| - i
  {
    if i == |entries| then Exhausted
    else if entries[i].id in sent then ScanFrom(entries, sent, blacklist, i + 1)
    else match entries[i].metadata
      case None => GetFailed
      case Some(m) =>
        if IsBlacklisted(m.sender, blacklist) then ScanFrom(entries, sent, blacklist, i + 1)
        else Found(ToEmailData(entries[i].id, m))
  }

  /**
   * What `fetch_latest_email` returns, given the Gmail responses: nothing when the list call
   * failed, and never an email that was handled before or whose sender is blacklisted.
   */
  function LatestEmail(listing: Option<seq<Listed>>, sent: set<string>, blacklist: seq<string>): (r: Option<EmailData>)
    ensures listing.None? ==> r.None?
    ensures r.Some? ==> r.value.id !in sent && !IsBlacklisted(r.value.from, blacklist)
  {
    match listing
    case None => None
    case Some(entries) =>
      match ScanFrom(entries, sent, blacklist, 0)
      case Found(e) => Some(e)
      case _ => None
  }

  /** `fetch_latest_email`: the first listed message that is neither handled nor blacklisted. */
  method FetchLatestEmail(listing: Option<seq<Listed>>, sent: set<string>, blacklist: seq<string>)
    returns (r: Option<EmailData>)
    ensures r == LatestEmail(listing, sent, blacklist)
  {
    if listing.None? {
      return None;  // messages().list raised HttpError
    }
    var messages := listing.value;
    for i := 0 to |messages|
      invariant ScanFrom(messages, sent, blacklist, i) == ScanFrom(messages, sent, blacklist, 0)
    {
      var msg := messages[i];
      if msg.id in sent {
        continue;
      }
      if msg.metadata.None? {
        return None;  // messages().get raised HttpError
      }
      var m := msg.metadata.value;
      if IsBlacklisted(m.sender, blacklist) {
        continue;
      }
      return Some(ToEmailData(msg.id, m));
    }
    return None;
  }

  // ---------------------------------------------------------------------------
  // Properties of the scan

  /** A found message is selectable, every message before it was skipped, and the record copies its fields. */
  lemma {:induction false} ScanFoundIsFirstSelectable(entries: seq<Listed>, sent: set<string>, blacklist: seq<string>, i: nat)
    requires i <= |entries|
    requires ScanFrom(entries, sent, blacklist, i).Found?
    ensures exists k :: (i <= k < |entries| && SkippedBetween(entries, sent, blacklist, i, k)
      && Selectable(entries[k], sent, blacklist)
      && ScanFrom(entries, sent, blacklist, i).email == ToEmailData(entries[k].id, entries[k].metadata.value))
    decreases |entries| - i
  {
    if !Selectable(entries[i], sent, blacklist) {
      ScanFoundIsFirstSelectable(entries, sent, blacklist, i + 1);
      var k :| i + 1 <= k < |entries| && SkippedBetween(entries, sent, blacklist, i + 1, k)
        && Selectable(entries[k], sent, blacklist)
        && ScanFrom(entries, sent, blacklist, i + 1).email == ToEmailData(entries[k].id, entries[k].metadata.value);
      assert SkippedBetween(entries, sent, blacklist, i, k);
    } else {
      assert SkippedBetween(entries, sent, blacklist, i, i);
    }
  }

  /** Conversely, the first selectable message after only skipped ones is the one found. */
  lemma {:induction false} ScanFindsFirstSelectable(entries: seq<Listed>, sent: set<string>, blacklist: seq<string>, i: nat, k: nat)
    requires i <= k < |entries|
    requires SkippedBetween(entries, sent, blacklist, i, k) && Selectable(entries[k], sent, blacklist)
    ensures ScanFrom(entries, sent, blacklist, i) == Found(ToEmailData(entries[k].id, entries[k].metadata.value))
    decreases k - i
  {
    if i < k {
      assert Skipped(entries[i], sent, blacklist);
      ScanFindsFirstSelectable(entries, sent, blacklist, i + 1, k);
    }
  }

  /** The scan runs off the end exactly when every remaining message is skipped. */
  lemma {:induction false} ScanExhaustedIff(entries: seq<Listed>, sent: set<string>, blacklist: seq<string>, i: nat)
    requires i <= |entries|
    ensures ScanFrom(entries, sent, blacklist, i) == Exhausted <==> SkippedBetween(entries, sent, blacklist, i, |entries|)
    decreases |entries| - i
  {
    if i < |entries| {
      ScanExhaustedIff(entries, sent, blacklist, i + 1);
    }
  }

  /** The scan fails exactly when the first message it must fetch cannot be fetched. */
  lemma {:induction false} ScanFailedIff(entries: seq<Listed>, sent: set<string>, blacklist: seq<string>, i: nat)
    requires i <= |entries|
    ensures ScanFrom(entries, sent, blacklist, i) == GetFailed <==>
      exists k :: i <= k < |entries| && SkippedBetween(entries, sent, blacklist, i, k)
        && entries[k].id !in sent && entries[k].metadata.None?
    decreases |entries| - i
  {
    if i < |entries| {
      ScanFailedIff(entries, sent, blacklist, i + 1);
      if ScanFrom(entries, sent, blacklist, i) == GetFailed && Skipped(entries[i], sent, blacklist) {
        var k :| i + 1 <= k < |entries| && SkippedBetween(entries, sent, blacklist, i + 1, k)
          && entries[k].id !in sent && entries[k].metadata.None?;
        assert SkippedBetween(entries, sent, blacklist, i, k);
      }
      if ScanFrom(entries, sent, blacklist, i) == GetFailed && !Skipped(entries[i], sent, blacklist) {
        assert SkippedBetween(entries, sent, blacklist, i, i);
      }
      if k :| (i <= k < |entries| && SkippedBetween(entries, sent, blacklist, i, k)
        && entries[k].id !in sent && entries[k].metadata.None?)
      {
        if k > i {
          assert Skipped(entries[i], sent, blacklist);
          assert SkippedBetween(entries, sent, blacklist, i + 1, k);
        }
      }
    }
  }

  // ---------------------------------------------------------------------------
  // Properties of fetch_latest_email

  /**
   * First match wins: the result is the first listed message that passes both filters,
   * every message before it was handled or blacklisted, and the record holds its id,
   * sender, subject and snippet (the empty string when there is no snippet).
   */
  lemma LatestEmailIsFirstMatch(listing: Option<seq<Listed>>, sent: set<string>, blacklist: seq<string>)
    requires LatestEmail(listing, sent, blacklist).Some?
    ensures listing.Some?
    ensures exists k :: (0 <= k < |listing.value| && SkippedBetween(listing.value, sent, blacklist, 0, k)
      && Selectable(listing.value[k], sent, blacklist)
      && var m := listing.value[k].metadata.value;
         LatestEmail(listing, sent, blacklist).value
           == EmailData(listing.value[k].id, m.sender, m.subject, if m.snippet.Some? then m.snippet.value else ""))
  {
    ScanFoundIsFirstSelectable(listing.value, sent, blacklist, 0);
  }

  /**
   * Nothing is returned exactly when the listing failed, when every listed message is
   * handled or blacklisted, or when fetching the first candidate's metadata failed.
   */
  lemma LatestEmailNoneIff(listing: Option<seq<Listed>>, sent: set<string>, blacklist: seq<string>)
    ensures LatestEmail(listing, sent, blacklist).None? <==>
      listing.None?
      || SkippedBetween(listing.value, sent, blacklist, 0, |listing.value|)
      || exists k :: 0 <= k < |listing.value| && SkippedBetween(listing.value, sent, blacklist, 0, k)
           && listing.value[k].id !in sent && listing.value[k].metadata.None?
  {
    if listing.Some? {
      ScanExhaustedIff(listing.value, sent, blacklist, 0);
      ScanFailedIff(listing.value, sent, blacklist, 0);
    }
  }
}
