/** The completion endpoint `app/api/chat-direct/route.ts`: coerce the request
    body to a message list, make sure a system message is present, call the
    chat-completion provider once and return the first choice's text. The
    provider is a parameter of the model. */
module ChatDirect {
  import opened Wrappers
  import opened Messages

  /** One element of the request's `messages` array, as parsed JSON. The
      handler's element type is a compile-time annotation only, so an element
      may also be a non-object value (`m.role` is then undefined) or `null`
      (`m.role` then throws a TypeError). */
  datatype Entry = Message(msg: Msg) | NonObject | Null

  /** The `messages` field of a parsed body. A body that is not an object, or
      is `null`, reads as `Missing`. */
  datatype MessagesField = Missing | NotAnArray | AnArray(items: seq<Entry>)

  /** The request body: `req.json()` either rejects or yields a value. */
  datatype RequestBody = Unparsable | Parsed(messages: MessagesField)

  /** The provider's completion, as far as the handler reads it:
      `choices?.[0]?.message?.content`. Token usage is not modelled. */
  datatype Completion = Completion(choices: Option<seq<Choice>>)
  datatype Choice = Choice(message: Option<ChoiceMessage>)
  datatype ChoiceMessage = ChoiceMessage(content: Option<string>)

  /** The provider call either returns a completion or throws (network, key,
      quota or provider error). */
  datatype UpstreamResult = Completed(completion: Completion) | Failed

  datatype ResponseBody = ReplyPayload(reply: string) | PlainText(text: string)
  datatype Response = Response(status: int, body: ResponseBody)

  /** What one POST does: the list it sends upstream, if it gets that far,
      and the response it returns. */
  datatype Exchange = Exchange(sent: Option<seq<Entry>>, response: Response)

  /** The outcome of `incoming.find((m) => m.role === "system")`. */
  datatype Lookup = Found | NotFound | TypeError

  const InternalServerError: Response := Response(500, PlainText("Internal Server Error"))
  const MethodNotAllowed: Response := Response(405, PlainText("Method Not Allowed"))

  predicate IsSystem(e: Entry) {
    e.Message? && e.msg.role == System
  }

  predicate NoNullBefore(xs: seq<Entry>, i: int)
    requires 0 <= i <= |xs|
  {
    forall j :: 0 <= j < i ==> !xs[j].Null?
  }

  /** Lines 7-11: anything but an array in `messages` is an empty list. */
  function Incoming(body: RequestBody): (r: seq<Entry>)
    ensures body.Parsed? && body.messages.AnArray? ==> r == body.messages.items
    ensures !(body.Parsed? && body.messages.AnArray?) ==> r == []
  {
    match body
    case Parsed(AnArray(items)) => items
    case _ => []
  }

  /** Line 21: `find` scans left to right and stops at the first system
      message; reading `role` of a `null` element before that throws. */
  function FindSystem(xs: seq<Entry>): (r: Lookup)
    ensures r == Found <==>
      exists i :: 0 <= i < |xs| && IsSystem(xs[i]) && NoNullBefore(xs, i)
    ensures r == NotFound <==>
      forall i :: 0 <= i < |xs| ==> !IsSystem(xs[i]) && !xs[i].Null?
  {
    if |xs| == 0 then NotFound
    else if xs[0].Null? then TypeError
    else if IsSystem(xs[0]) then Found
    else
      var r := FindSystem(xs[1..]);
      assert forall i :: 1 <= i <= |xs| ==> (NoNullBefore(xs, i) <==> NoNullBefore(xs[1..], i - 1));
      assert r == Found ==> exists i :: 0 <= i < |xs| && IsSystem(xs[i]) && NoNullBefore(xs, i) by {
        if r == Found {
          var i :| 0 <= i < |xs[1..]| && IsSystem(xs[1..][i]) && NoNullBefore(xs[1..], i);
          assert IsSystem(xs[i + 1]) && NoNullBefore(xs, i + 1);
        }
      }
      assert (exists i :: 0 <= i < |xs| && IsSystem(xs[i]) && NoNullBefore(xs, i)) ==> r == Found by {
        if i :| 0 <= i < |xs| && IsSystem(xs[i]) && NoNullBefore(xs, i) {
          assert i >= 1;
          assert IsSystem(xs[1..][i - 1]) && NoNullBefore(xs[1..], i - 1);
        }
      }
      assert (forall i :: 0 <= i < |xs| ==> !IsSystem(xs[i]) && !xs[i].Null?) <==>
             (forall i :: 0 <= i < |xs[1..]| ==> !IsSystem(xs[1..][i]) && !xs[1..][i].Null?) by {
        if forall i :: 0 <= i < |xs[1..]| ==> !IsSystem(xs[1..][i]) && !xs[1..][i].Null? {
          forall i | 0 <= i < |xs| ensures !IsSystem(xs[i]) && !xs[i].Null? {
            if i > 0 { assert xs[i] == xs[1..][i - 1]; }
          }
        }
      }
      r
  }

  /** Line 22: the list before the emptiness test. */
  function BaseMessages(incoming: seq<Entry>, hasSystem: bool): (r: seq<Entry>)
    ensures hasSystem ==> r == incoming
    ensures !hasSystem ==> |r| == |incoming| + 1 && r[0] == Message(SystemMessage) && r[1..] == incoming
  {
    if hasSystem then incoming else [Message(SystemMessage)] + incoming
  }

  /** Lines 27-30: the fallback seed. */
  function SeedMessages(): (r: seq<Entry>)
    ensures |r| == 2 && r[0] == Message(SystemMessage)
    ensures r[1].Message? && r[1].msg.role == User
  {
    [Message(SystemMessage), Message(SeedGreeting)]
  }

  /** Lines 21-30: the list handed to the provider, or `None` when `find`
      throws. The seed branch is kept exactly as written. */
  function Assemble(incoming: seq<Entry>): (r: Option<seq<Entry>>)
    ensures r.None? <==> FindSystem(incoming) == TypeError
    ensures FindSystem(incoming) == Found ==> r == Some(incoming)
    ensures FindSystem(incoming) == NotFound ==> r == Some([Message(SystemMessage)] + incoming)
    ensures r.Some? ==> |r.value| == |incoming| + (if FindSystem(incoming) == Found then 0 else 1)
  {
    match FindSystem(incoming)
    case TypeError => None
    case lookup =>
      var base := BaseMessages(incoming, lookup == Found);
      Some(if |base| > 0 then base else SeedMessages())
  }

  /** Line 41: the first choice's text, or "" when any link of the optional
      chain, or the content itself, is missing. */
  function ReplyText(c: Completion): (r: string)
    ensures c.choices.Some? && |c.choices.value| > 0
            && c.choices.value[0].message.Some?
            && c.choices.value[0].message.value.content.Some?
            ==> r == c.choices.value[0].message.value.content.value
    ensures c.choices.None? || |c.choices.value| == 0
            || c.choices.value[0].message.None?
            || c.choices.value[0].message.value.content.None?
            ==> r == ""
  {
    match c.choices
    case None => ""
    case Some(cs) =>
      if |cs| == 0 then ""
      else match cs[0].message
        case None => ""
        case Some(m) => m.content.GetOr("")
  }

  /** Line 41: only the first choice is read; later choices never matter, and
      the reply is empty exactly when the first content is missing or empty. */
  lemma ReplyTextFirstChoiceOnly(first: Choice, rest: seq<Choice>)
    ensures ReplyText(Completion(Some([first] + rest))) == ReplyText(Completion(Some([first])))
    ensures ReplyText(Completion(Some([first] + rest))) == "" <==>
      first.message.None? || first.message.value.content.None? || first.message.value.content.value == ""
  {
  }

  /** The POST handler, lines 5-50. Every thrown error becomes the plain 500. */
  function Post(body: RequestBody, upstream: seq<Entry> -> UpstreamResult): (r: Exchange)
    ensures r.sent == Assemble(Incoming(body))
    ensures r.response.status == 200 <==> r.sent.Some? && upstream(r.sent.value).Completed?
    ensures r.response.status == 200 ==>
      r.response.body == ReplyPayload(ReplyText(upstream(r.sent.value).completion))
    ensures r.response.status != 200 ==> r.response == InternalServerError
  {
    match Assemble(Incoming(body))
    case None => Exchange(None, InternalServerError)
    case Some(messages) =>
      match upstream(messages)
      case Failed => Exchange(Some(messages), InternalServerError)
      case Completed(c) => Exchange(Some(messages), Response(200, ReplyPayload(ReplyText(c))))
  }

  /** The GET handler, lines 52-54. */
  function Get(): (r: Response)
    ensures r.status == 405 && r.body.PlainText?
  {
    MethodNotAllowed
  }

  /** Lines 21-30: whatever `find` answers, the base list is non-empty, so the
      seed branch is never taken and the list sent is the base list. */
  lemma SeedBranchUnreachable(incoming: seq<Entry>)
    requires FindSystem(incoming) != TypeError
    ensures |BaseMessages(incoming, FindSystem(incoming) == Found)| > 0
    ensures Assemble(incoming) == Some(BaseMessages(incoming, FindSystem(incoming) == Found))
  {
  }

  /** An empty list is sent upstream as the persona alone, not as the
      two-message seed. */
  lemma EmptyIncomingSendsPersonaOnly()
    ensures Assemble([]) == Some([Message(SystemMessage)])
    ensures Assemble([]) != Some(SeedMessages())
  {
    assert FindSystem([]) == NotFound;
    assert [Message(SystemMessage)] + [] == [Message(SystemMessage)];
    assert SeedMessages()[1] != Message(SystemMessage);
  }

  /** Lines 7, 11 and 22: an unparsable body, a missing `messages` field or a
      non-array one all send exactly the persona upstream. */
  lemma NonArrayBodySendsPersona(body: RequestBody, upstream: seq<Entry> -> UpstreamResult)
    requires !(body.Parsed? && body.messages.AnArray?)
    ensures Post(body, upstream).sent == Some([Message(SystemMessage)])
  {
    EmptyIncomingSendsPersonaOnly();
  }

  /** Line 22: the persona is prepended exactly when no element is a system
      message (and none is null); otherwise the list is kept unchanged, even
      with the system message at a later index or repeated. */
  lemma PersonaPrependedIffNoSystem(incoming: seq<Entry>)
    requires forall i :: 0 <= i < |incoming| ==> !incoming[i].Null?
    ensures Assemble(incoming).Some?
    ensures (forall i :: 0 <= i < |incoming| ==> !IsSystem(incoming[i])) <==>
            Assemble(incoming) == Some([Message(SystemMessage)] + incoming)
    ensures (exists i :: 0 <= i < |incoming| && IsSystem(incoming[i])) <==>
            Assemble(incoming) == Some(incoming)
  {
    if exists i :: 0 <= i < |incoming| && IsSystem(incoming[i]) {
      var i :| 0 <= i < |incoming| && IsSystem(incoming[i]);
      assert NoNullBefore(incoming, i);
      assert FindSystem(incoming) == Found;
      assert |[Message(SystemMessage)] + incoming| != |incoming|;
    } else {
      assert FindSystem(incoming) == NotFound;
      assert |[Message(SystemMessage)] + incoming| != |incoming|;
    }
  }
}
