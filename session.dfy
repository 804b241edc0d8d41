/**
 * The per-session state of the responder (`st.session_state` in app.py) and the four
 * buttons that change it. Streamlit keeps this state across reruns of the script;
 * each method below is one button press. What the external services answer during
 * a press (the extracted document text, the Gmail responses, the language model's
 * answer, whether Gmail accepted the reply) is passed in.
 */
module Session {
  import opened Wrappers
  import opened Mailbox
  import opened Reply

  /** What `st.session_state.sent_emails` held before the initialisation block ran. */
  datatype StoredSent = Missing | StoredSet(ids: set<string>) | StoredList(items: seq<string>)

  /** Python's `set(items)`: the distinct elements of a list. */
  function ElementsOf(items: seq<string>): (r: set<string>)
    ensures forall x :: x in r <==> x in items
    ensures |r| <= |items|
  {
    if items == [] then {} else {items[0]} + ElementsOf(items[1..])
  }

  /** The handled set after the initialisation block: empty, kept, or converted from a list. */
  function InitialSentEmails(stored: StoredSent): (r: set<string>)
    ensures stored.Missing? ==> r == {}
    ensures stored.StoredSet? ==> r == stored.ids
    ensures stored.StoredList? ==> (forall x :: x in r <==> x in stored.items) && |r| <= |stored.items|
  {
    match stored
    case Missing => {}
    case StoredSet(ids) => ids
    case StoredList(items) => ElementsOf(items)
  }

  /** The searchable index built from the uploaded documents; it records the text it was built from. */
  datatype Vectorstore = Vectorstore(sourceText: string)

  /** The message handed to Gmail by `send_email`. */
  datatype Outgoing = Outgoing(to: string, subject: string, body: string)

  datatype GenerateOutcome = GenerateNotReady | Generated(reply: string) | ModelFailed

  /** A delivered reply also names the email it answered, the id `send_email` adds to the handled set. */
  datatype SendOutcome = SendNotReady | Sent(message: Outgoing, answered: string) | SendFailed(message: Outgoing)

  class SessionState {
    var sentEmails: set<string>
    var emailData: Option<EmailData>
    var vectorstore: Option<Vectorstore>
    var generatedResponse: Option<string>

    /** The handled ids the session started with. */
    ghost var initialIds: set<string>
    /** Every id a fetch has stored in `emailData`. */
    ghost var fetchedIds: set<string>

    /**
     * Only ids the session started with or fetched are ever marked handled; the stored
     * email was fetched and its sender is not blacklisted; an index is only built from
     * non-empty text; a response exists only once an email and an index do.
     */
    ghost predicate Valid()
      reads this
    {
      sentEmails <= initialIds + fetchedIds
      && (emailData.Some? ==> emailData.value.id in fetchedIds && !IsBlacklisted(emailData.value.from, Blacklist))
      && (vectorstore.Some? ==> vectorstore.value.sourceText != "")
      && (generatedResponse.Some? ==> emailData.Some? && vectorstore.Some?)
    }

    /** The initialisation block at the top of the script, on a session holding `stored`. */
    constructor (stored: StoredSent)
      ensures Valid()
      ensures sentEmails == InitialSentEmails(stored) && initialIds == sentEmails && fetchedIds == {}
      ensures emailData == None && vectorstore == None && generatedResponse == None
    {
      sentEmails := InitialSentEmails(stored);
      initialIds := sentEmails;
      fetchedIds := {};
      emailData := None;
      vectorstore := None;
      generatedResponse := None;
    }

    /**
     * "Process Documents": `rawText` is the text extracted from the uploads. A new index
     * replaces the old one only when the text is non-empty; otherwise nothing changes.
     */
    method ProcessDocuments(rawText: string) returns (processed: bool)
      requires Valid()
      modifies this
      ensures Valid()
      ensures processed <==> rawText != ""
      ensures vectorstore == if processed then Some(Vectorstore(rawText)) else old(vectorstore)
      ensures sentEmails == old(sentEmails) && emailData == old(emailData)
      ensures generatedResponse == old(generatedResponse)
      ensures initialIds == old(initialIds) && fetchedIds == old(fetchedIds)
    {
      processed := rawText != "";
      if processed {
        vectorstore := Some(Vectorstore(rawText));
      }
    }

    /**
     * "Fetch Latest Email": the first unread message that is neither handled nor
     * blacklisted becomes the current email; when there is none, the previous one stays.
     */
    method Fetch(listing: Option<seq<Listed>>) returns (found: Option<EmailData>)
      requires Valid()
      modifies this
      ensures Valid()
      ensures found == LatestEmail(listing, sentEmails, Blacklist)
      ensures found.Some? ==> found.value.id !in sentEmails && !IsBlacklisted(found.value.from, Blacklist)
      ensures emailData == if found.Some? then found else old(emailData)
      ensures fetchedIds == if found.Some? then old(fetchedIds) + {found.value.id} else old(fetchedIds)
      ensures sentEmails == old(sentEmails) && vectorstore == old(vectorstore)
      ensures generatedResponse == old(generatedResponse) && initialIds == old(initialIds)
    {
      found := FetchLatestEmail(listing, sentEmails, Blacklist);
      if found.Some? {
        emailData := found;
        fetchedIds := fetchedIds + {found.value.id};
      }
    }

    /**
     * "Generate Response": only with both an email and an index. `answer` is the language
     * model's answer to the email body, or `None` when that call raised, which ends the
     * press with nothing changed.
     */
    method Generate(answer: Option<string>) returns (outcome: GenerateOutcome)
      requires Valid()
      modifies this
      ensures Valid()
      ensures emailData.None? || vectorstore.None? ==> outcome == GenerateNotReady
      ensures emailData.Some? && vectorstore.Some? && answer.None? ==> outcome == ModelFailed
      ensures emailData.Some? && vectorstore.Some? && answer.Some? ==>
        outcome == Generated(ComposeReply(emailData.value.from, answer.value))
      ensures generatedResponse == if outcome.Generated? then Some(outcome.reply) else old(generatedResponse)
      ensures sentEmails == old(sentEmails) && emailData == old(emailData) && vectorstore == old(vectorstore)
      ensures initialIds == old(initialIds) && fetchedIds == old(fetchedIds)
    {
      if emailData.Some? && vectorstore.Some? {
        if answer.None? {
          return ModelFailed;
        }
        var response := ComposeReply(emailData.value.from, answer.value);
        if response != "" {
          generatedResponse := Some(response);
        }
        outcome := Generated(response);
      } else {
        outcome := GenerateNotReady;
      }
    }

    /**
     * "Send Response": only with both a response and an email. The reply goes to the
     * email's sender under the same subject; only when Gmail accepts it (`delivered`)
     * is the email's id added to the handled set.
     */
    method Send(delivered: bool) returns (outcome: SendOutcome)
      requires Valid()
      modifies this
      ensures Valid()
      ensures generatedResponse.None? || emailData.None? ==> outcome == SendNotReady
      ensures generatedResponse.Some? && emailData.Some? ==>
        var message := Outgoing(emailData.value.from, emailData.value.subject, generatedResponse.value);
        outcome == if delivered then Sent(message, emailData.value.id) else SendFailed(message)
      ensures sentEmails == if outcome.Sent? then old(sentEmails) + {outcome.answered} else old(sentEmails)
      ensures emailData == old(emailData) && vectorstore == old(vectorstore)
      ensures generatedResponse == old(generatedResponse)
      ensures initialIds == old(initialIds) && fetchedIds == old(fetchedIds)
    {
      if generatedResponse.Some? && emailData.Some? {
        var email := emailData.value;
        var message := Outgoing(email.from, email.subject, generatedResponse.value);
        if delivered {
          sentEmails := sentEmails + {email.id};
          outcome := Sent(message, email.id);
        } else {
          outcome := SendFailed(message);
        }
      } else {
        outcome := SendNotReady;
      }
    }
  }

  /** One button press, with what the outside services answer during it. */
  datatype Press =
    | ProcessPress(rawText: string)
    | FetchPress(listing: Option<seq<Listed>>)
    | GeneratePress(answer: Option<string>)
    | SendPress(delivered: bool)

  /** What one press did. */
  datatype Effect =
    | Processed(processed: bool)
    | Fetched(found: Option<EmailData>)
    | Composed(generate: GenerateOutcome)
    | Delivered(send: SendOutcome)

  /** The id an effect marked as handled, if any. */
  function HandledBy(e: Effect): Option<string> {
    if e.Delivered? && e.send.Sent? then Some(e.send.answered) else None
  }

  /** The id an effect fetched, if any. */
  function FetchedBy(e: Effect): Option<string> {
    if e.Fetched? && e.found.Some? then Some(e.found.value.id) else None
  }

  /** Every id the effects marked as handled. */
  function HandledIds(effects: seq<Effect>): set<string> {
    set i | 0 <= i < |effects| && HandledBy(effects[i]).Some? :: HandledBy(effects[i]).value
  }

  /** The press and the effect are of the same button. */
  predicate SameButton(p: Press, e: Effect) {
    (p.ProcessPress? && e.Processed?) || (p.FetchPress? && e.Fetched?)
    || (p.GeneratePress? && e.Composed?) || (p.SendPress? && e.Delivered?)
  }

  /**
   * A session as Streamlit runs it: one rerun of `main` per button press, in any order.
   * The handled set only grows, and an email whose reply was sent is never fetched by any
   * later press.
   */
  method RunPresses(s: SessionState, presses: seq<Press>) returns (effects: seq<Effect>)
    requires s.Valid()
    modifies s
    ensures s.Valid() && s.sentEmails == old(s.sentEmails) + HandledIds(effects)
    ensures |effects| == |presses|
    ensures forall i :: 0 <= i < |presses| ==> SameButton(presses[i], effects[i])
    ensures forall j :: 0 <= j < |presses| && presses[j].FetchPress? ==>
      effects[j] == Fetched(LatestEmail(presses[j].listing, old(s.sentEmails) + HandledIds(effects[..j]), Blacklist))
    ensures forall j :: 0 <= j < |presses| && presses[j].SendPress? ==>
      effects[j].Delivered? && (effects[j].send.Sent? ==> presses[j].delivered)
    ensures forall i, j :: (0 <= i < j < |effects| && HandledBy(effects[i]).Some? && FetchedBy(effects[j]).Some?
      ==> HandledBy(effects[i]).value != FetchedBy(effects[j]).value)
  {
    effects := [];
    for n := 0 to |presses|
      invariant s.Valid() && s.sentEmails == old(s.sentEmails) + HandledIds(effects)
      invariant |effects| == n
      invariant forall i :: 0 <= i < n ==> SameButton(presses[i], effects[i])
      invariant forall j :: 0 <= j < n && presses[j].FetchPress? ==>
        effects[j] == Fetched(LatestEmail(presses[j].listing, old(s.sentEmails) + HandledIds(effects[..j]), Blacklist))
      invariant forall j :: 0 <= j < n && presses[j].SendPress? ==>
        effects[j].Delivered? && (effects[j].send.Sent? ==> presses[j].delivered)
      invariant forall i, j :: (0 <= i < j < n && HandledBy(effects[i]).Some? && FetchedBy(effects[j]).Some?
        ==> HandledBy(effects[i]).value != FetchedBy(effects[j]).value)
    {
      var effect: Effect;
      match presses[n] {
        case ProcessPress(rawText) =>
          var processed := s.ProcessDocuments(rawText);
          effect := Processed(processed);
        case FetchPress(listing) =>
          var found := s.Fetch(listing);
          effect := Fetched(found);
        case GeneratePress(answer) =>
          var outcome := s.Generate(answer);
          effect := Composed(outcome);
        case SendPress(delivered) =>
          var outcome := s.Send(delivered);
          effect := Delivered(outcome);
      }
      assert HandledIds(effects + [effect])
        == HandledIds(effects) + (if HandledBy(effect).Some? then {HandledBy(effect).value} else {}) by {
        var e' := effects + [effect];
        forall x | x in HandledIds(e')
          ensures x in HandledIds(effects) + (if HandledBy(effect).Some? then {HandledBy(effect).value} else {})
        {
          var i :| 0 <= i < |e'| && HandledBy(e'[i]).Some? && HandledBy(e'[i]).value == x;
          if i < |effects| { assert e'[i] == effects[i]; }
        }
        forall x | x in HandledIds(effects) ensures x in HandledIds(e') {
          var i :| 0 <= i < |effects| && HandledBy(effects[i]).Some? && HandledBy(effects[i]).value == x;
          assert e'[i] == effects[i];
        }
        if HandledBy(effect).Some? {
          assert e'[|effects|] == effect;
        }
      }
      assert forall j :: 0 <= j <= n ==> (effects + [effect])[..j] == effects[..j];
      assert effects == effects[..n];
      effects := effects + [effect];
    }
  }

  /**
   * Fetching does not discard an earlier generated response, so a send right after a new
   * fetch delivers the reply composed for the previous email to the newly fetched sender
   * and marks the new email as handled.
   */
  method SendAfterFetchReusesReply(s: SessionState, listing: Option<seq<Listed>>)
    returns (found: Option<EmailData>, outcome: SendOutcome)
    requires s.Valid() && s.generatedResponse.Some?
    modifies s
    ensures found.Some? ==>
      outcome == Sent(Outgoing(found.value.from, found.value.subject, old(s.generatedResponse).value), found.value.id)
      && found.value.id in s.sentEmails
  {
    found := s.Fetch(listing);
    outcome := s.Send(true);
  }
}
