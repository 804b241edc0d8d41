# AI email responder: verified model of its own logic

The responder is a Streamlit script, `app.py`. It reads a user's unread Gmail messages, picks the first listed one that has not been handled and whose sender is not blacklisted, asks a language model to answer it from uploaded PDF documents, wraps the answer in a personal greeting and a signature, and sends it back. Most of the script calls other libraries: PDF parsing, text splitting, embeddings, a FAISS index, OpenAI and the Gmail API. This project models the logic that belongs to the script itself:

- **Choosing the email** (`fetch_latest_email`), module `Mailbox`. The script walks the listed unread ids in order. It skips ids already in the handled set `sent_emails`. It skips senders that contain any blacklist entry as a substring. It returns the first remaining message as an `{id, from, subject, body}` record. It returns `None` when there is no such message, and also when a Gmail call raises `HttpError`. The Gmail responses are inputs. `listing` is the result of the list call, `None` when that call raised. Each listed id carries its metadata, `None` when fetching it raised. The method `FetchLatestEmail` runs the same loop and is proved equal to the recursive specification `ScanFrom`. The lemmas about `ScanFrom` state what the caller is promised.
- **Composing the reply** (`generate_customized_response`), modules `Text` and `Reply`. The sender name is the `From` text before the first `<`, stripped of white space, or the whole `From` when it has no `<`. `Text` models Python's `in`, `str.strip()` (with Python's set of white-space characters) and `split('<')[0]`. The reply is the salutation, then the model's answer verbatim, then the fixed signature.
- **The session** (`main`, the initialisation block and `send_email`), module `Session`. The class `SessionState` holds the handled set, the fetched email, the index and the generated response. It has one method per button. Each method changes the state only under the guards the script checks. The outcomes of outside calls are parameters: the extracted text, the Gmail responses, the model's answer, and whether Gmail accepted the reply. Every method keeps the invariant `Valid()`:
  - only ids the session started with or fetched are ever marked handled;
  - the stored email's sender is not blacklisted;
  - an index is built only from non-empty text;
  - a response exists only once an email and an index do.

Each method also states the whole new state. The handled set never loses an element. A successful send adds exactly the current email's id. A failed send changes nothing.

Three details of app.py that the model keeps:
- Messages skipped as handled or blacklisted are not added to the handled set. Only a successful send adds an id (app.py:273).
- The sender name is stripped of surrounding white space, not only cut at the address delimiter (app.py:201).
- A failing language-model call is not caught. The button press ends and the session state is left as it was (app.py:166).

The model also makes one behaviour of the script explicit, in `SendAfterFetchReusesReply`. `Fetch` leaves `generatedResponse` unchanged. So after a new email is fetched, "Send Response" delivers the reply written for the earlier email to the new sender and marks the new id as handled (app.py:160, app.py:182-189).

## Model

| member | source | states |
|---|---|---|
| `Text.IsSpace` | app.py:201 | The white space `str.strip()` removes: Python's `str.isspace()` set. Space, tab, line feed and carriage return are in it; `<`, `@`, digits and ASCII letters are not. |
| `Text.Contains` | app.py:240 | Python's `pat in s`: true exactly when `pat` occurs at some position of `s`. |
| `Text.Strip` | app.py:201 | `str.strip()`: the result is a slice of the input with only white space before and after it, and it neither begins nor ends with white space. |
| `Text.StripPadding` | app.py:201 | Strip is determined by that contract: any text with no white space at its ends, padded by white space on both sides, strips back to itself. |
| `Text.StripKeepsOut` | app.py:201 | Stripping never introduces a character: a `<` absent from the prefix is absent from the name. |
| `Text.PrefixBefore` | app.py:201 | `s.split(c)[0]`: a prefix of `s` without `c`; when `c` occurs, it stops exactly at the first `c`; otherwise it is all of `s`. |
| `Mailbox.IsBlacklisted` | app.py:229-240 | `any(b in sender for b in blacklist)`: true exactly when some blacklist entry occurs in the sender. |
| `Mailbox.Blacklist` | app.py:229 | The nine blacklist entries, verbatim. |
| `Mailbox.ToEmailData` | app.py:242-247 | The returned record holds the listed id, the `From` and `Subject` headers, and the snippet, or `''` when there is none. |
| `Mailbox.ScanFrom` | app.py:234-248 | The loop as a recursive scan: a found email was not handled and its sender is not blacklisted. |
| `Mailbox.LatestEmail` | app.py:231-251 | The value `fetch_latest_email` returns: `None` when the list call raises `HttpError`, otherwise the scan's email, with `None` for a failed get or an exhausted list. A returned email's id is never in the handled set and its sender is never blacklisted. |
| `Mailbox.FetchLatestEmail` | app.py:231-251 | The `for` loop with `continue` and early `return` gives exactly the specified result: `None` when the list call fails, otherwise the outcome of the scan, with `None` for a failed get or an exhausted list. |
| `Mailbox.ScanFoundIsFirstSelectable` | app.py:234-247 | A found email comes from a listed message that is unhandled, fetched and not blacklisted. Every message before it was skipped. The record copies that message's id, sender, subject and snippet. |
| `Mailbox.ScanFindsFirstSelectable` | app.py:234-247 | Conversely, when only skipped messages precede a selectable one, the scan returns that one. |
| `Mailbox.ScanExhaustedIff` | app.py:234-248 | The scan runs off the end, and `None` is returned, exactly when every listed message is handled or blacklisted. |
| `Mailbox.ScanFailedIff` | app.py:234-251 | The scan fails exactly when the first message it must fetch raises `HttpError`. Ids that are already handled are never fetched. |
| `Mailbox.LatestEmailIsFirstMatch` | app.py:234-247 | First match wins: the result is the first listed message passing both filters, all earlier ones were handled or blacklisted, and `body` is the snippet or `''` when there is none. |
| `Mailbox.LatestEmailNoneIff` | app.py:231-251 | `None` is returned exactly when the listing failed, when every message is handled or blacklisted, or when fetching the first candidate failed. |
| `Reply.SenderName` | app.py:201 | Without `<`, the name is the whole `From`. With `<`, the name is the stripped text before the first `<`: it contains no `<`, has no white space at its ends, and sits between white space in that prefix. |
| `Reply.SenderNameOfDisplayForm` | app.py:200-201 | A sender written `Name <address>`, with any white space around `Name`, is greeted as `Name`. |
| `Reply.JaneDoeName` | app.py:201 | `"Jane Doe <jane@x.com>"` gives the name `"Jane Doe"`. |
| `Reply.ComposeReply` | app.py:207 | The reply is the salutation `Dear <name>,` with a blank line, then the answer verbatim, then the signature `Best regards, Your Support Team Executive`. Its length is the sum of the three, so it is never empty. |
| `Reply.ComposeReplyInjective` | app.py:207 | The answer can be recovered from the reply: different answers to the same sender give different replies. |
| `Reply.ReplyOpensWithGreeting` | app.py:207 | Every reply opens with `Dear `, the sender's name and a comma. |
| `Session.ElementsOf` | app.py:41 | `set(list)`: the same elements as the list, and no more of them than the list has entries. |
| `Session.InitialSentEmails` | app.py:37-41 | The handled set starts empty when none is stored. A stored set is kept. A stored list becomes the set of its elements. |
| `Session.SessionState.constructor` | app.py:37-41 | A session starts with that handled set and with no email, index or response. |
| `Session.SessionState.ProcessDocuments` | app.py:135-142 | The index is replaced by one built from the extracted text exactly when the text is non-empty. Nothing else changes. |
| `Session.SessionState.Fetch` | app.py:146-162 | The result is `fetch_latest_email` on the current handled set and blacklist. A found email becomes the current email and a miss keeps the previous one. Handled set, index and response are untouched. |
| `Session.SessionState.Generate` | app.py:164-179 | The method needs both an email and an index. The reply is composed from the current sender and the model's answer. A failing model call leaves the state as it was. |
| `Session.SessionState.Send` | app.py:181-193 | The method needs both a response and an email. The reply goes to the email's sender under its subject. The handled set gains the email's id exactly when delivery succeeds (the update inside `send_email`, app.py:264-277), and the outcome names that id as the one answered; otherwise it is unchanged. |
| `Session.RunPresses` | app.py:119-193 | Over any sequence of button presses, in any order, the session stays valid. Each fetch press yields exactly `fetch_latest_email` on the handled set as it stands at that press. A send press counts as successful only when Gmail accepted the reply. The final handled set is exactly the initial one plus the ids of the emails the successful sends answered. No press after a successful send fetches the email it answered. |
| `Session.SendAfterFetchReusesReply` | app.py:146-193 | After a fetch that finds a new email, a successful send delivers the previously generated response to the new sender under the new subject, and marks the new id as handled. |

## Left out

- The Streamlit interface: CSS, images, titles, HTML rendering of the email and the reply, `html.escape`, and the success and error messages (app.py:44-133, 142, 149-159, 162, 168-176, 179, 191-193). This is presentation only.
- PDF text extraction with PyPDF2 (app.py:211-217). The extracted text is an input of `ProcessDocuments`.
- Chunking with LangChain's `CharacterTextSplitter` (app.py:219-221). It is library code that is not shown here. No chunk property is modelled.
- Embeddings and the FAISS index (app.py:223-225). These are library code and floating-point numerics. `Vectorstore` records only the text it was built from. An exception raised while building the index is not modelled.
- The language-model call (app.py:253-262). It is a network call. Its answer is a parameter of `Generate`, and `None` stands for a call that raised.
- Gmail authentication, `token.json` and the list/get/send calls (app.py:228, 232, 238, 265, 272, 279-291). These are network and file I/O. They are inputs: the listing, each message's metadata, and the delivery flag of `Send`.
- A missing `From` or `Subject` header, where `next(...)` raises `StopIteration` (app.py:239, 245). The model assumes both headers are present.
- MIME and base64 construction of the outgoing message (app.py:267-271). This is library encoding. `Outgoing` keeps the recipient, the subject and the body.
- The error messages printed in the `except` branches (app.py:250, 276). This is console output only.
