/** The personalised reply of `generate_customized_response` in app.py. */
module Reply {
  import opened Text

  /**
   * The name to greet: with a `<` in the `From` header, the text before the first
   * `<` with surrounding white space stripped; without one, the header unchanged.
   */
  function SenderName(from: string): (name: string)
    ensures '<' !in from ==> name == from
    ensures '<' in from ==> '<' !in name && NoEdgeSpace(name)
    ensures '<' in from ==> exists j, i :: (0 <= j < |from| && from[j] == '<' && '<' !in from[..j]
      && PaddedAt(from[..j], name, i))
  {
    if '<' in from then
      var prefix := PrefixBefore(from, '<');
      var name := Strip(prefix);
      assert from[..|prefix|] == prefix;
      StripKeepsOut(prefix, '<');
      name
    else
      from
  }

  /** A sender written `Name <address>` is greeted by `Name`, whatever white space surrounds it. */
  lemma SenderNameOfDisplayForm(ws1: string, n: string, ws2: string, address: string)
    requires AllSpace(ws1) && AllSpace(ws2) && NoEdgeSpace(n) && '<' !in n
    ensures SenderName(ws1 + n + ws2 + "<" + address) == n
  {
    var pad := ws1 + n + ws2;
    var from := pad + ("<" + address);
    assert ws1 + n + ws2 + "<" + address == from;
    NoBracketInPadding(ws1, n, ws2);
    PrefixOfDisplayForm(pad, "<" + address);
    assert from[|pad|] == '<';
    assert SenderName(from) == Strip(pad);
    StripPadding(ws1, n, ws2);
  }

  lemma NoBracketInPadding(ws1: string, n: string, ws2: string)
    requires AllSpace(ws1) && AllSpace(ws2) && '<' !in n
    ensures '<' !in ws1 + n + ws2
  {
    assert !IsSpace('<');
  }

  lemma {:induction false} PrefixOfDisplayForm(pad: string, rest: string)
    requires '<' !in pad && rest != [] && rest[0] == '<'
    ensures PrefixBefore(pad + rest, '<') == pad
  {
    if pad != [] {
      assert (pad + rest)[1..] == pad[1..] + rest;
      PrefixOfDisplayForm(pad[1..], rest);
    } else {
      assert pad + rest == rest;
    }
  }

  /** The salutation line and the blank line after it. */
  function Salutation(name: string): string {
    "Dear " + name + ",\n\n"
  }

  /** The closing lines, preceded by a blank line. */
  const Signature: string := "\n\nBest regards,\nYour Support Team Executive"

  /**
   * The reply: the salutation to the sender's name, the answer verbatim, the signature.
   * It is never empty, so the `if response:` test in the caller always succeeds.
   */
  function ComposeReply(from: string, answer: string): (reply: string)
    ensures |reply| == |Salutation(SenderName(from))| + |answer| + |Signature|
    ensures reply[..|Salutation(SenderName(from))|] == Salutation(SenderName(from))
    ensures reply[|Salutation(SenderName(from))|..|reply| - |Signature|] == answer
    ensures reply[|reply| - |Signature|..] == Signature
  {
    var greeting := Salutation(SenderName(from));
    var reply := greeting + answer + Signature;
    assert reply[|greeting|..|reply| - |Signature|] == answer;
    reply
  }

  /** Different answers to the same sender give different replies: the answer is recoverable. */
  lemma ComposeReplyInjective(from: string, a1: string, a2: string)
    requires ComposeReply(from, a1) == ComposeReply(from, a2)
    ensures a1 == a2
  {
    var g := |Salutation(SenderName(from))|;
    var r := ComposeReply(from, a1);
    assert a1 == r[g..|r| - |Signature|];
  }

  /** The sender `"Jane Doe <jane@x.com>"` is greeted as `"Jane Doe"`. */
  lemma JaneDoeName(from: string)
    requires from == "Jane Doe <jane@x.com>"
    ensures SenderName(from) == "Jane Doe"
  {
    assert from[..8] == "Jane Doe" && from[8..9] == " " && from[9..10] == "<" && from[10..] == "jane@x.com>";
    assert from == "" + from[..8] + from[8..9] + from[9..10] + from[10..];
    assert NoEdgeSpace("Jane Doe") && AllSpace(" ") && AllSpace("");
    SenderNameOfDisplayForm("", "Jane Doe", " ", "jane@x.com>");
  }

  /** A reply opens with `Dear `, the sender's name and a comma. */
  lemma ReplyOpensWithGreeting(from: string, answer: string)
    ensures ComposeReply(from, answer)[..|SenderName(from)| + 6] == "Dear " + SenderName(from) + ","
  {
    var greeting := Salutation(SenderName(from));
    var reply := ComposeReply(from, answer);
    assert reply[..|SenderName(from)| + 6] == greeting[..|SenderName(from)| + 6];
  }
}
