/** The chat page `app/chat/page.tsx`: its transcript, input text and loading
    flag, and the submit handler split into its synchronous part (`Submit`)
    and the settlement of the request (`Resolve`). Rendering is not modelled. */
module ChatPage {
  import opened Wrappers
  import opened Messages
  import opened Text

  /** The page's React state: `messages`, `input` and `isLoading`. */
  datatype State = State(messages: seq<Msg>, input: string, loading: bool)

  const Initial: State := State([], "", false)

  /** The assistant text shown when a turn fails for any reason. */
  const Apology: string := "Oops, I couldn't reply right now. Please try again in a moment."

  /** The state after the synchronous part of `handleSubmit` and the
      `messages` field of the POST it issues, if it issues one. */
  datatype Submitted = Submitted(state: State, request: Option<seq<Msg>>)

  /** The body of an ok response: `res.json()` either rejects or yields a
      value whose `reply` field, when present, is stringified. */
  datatype ReplyBody = JsonBody(reply: Option<string>) | Malformed

  /** How the `fetch` settles: a response with its `ok` flag, or a rejection. */
  datatype FetchOutcome = Received(ok: bool, body: ReplyBody) | NetworkError

  /** Line 182: the submit button is enabled when nothing is in flight and
      the trimmed input is non-empty. */
  predicate CanSubmit(s: State)
    ensures CanSubmit(s) <==> !s.loading && !AllWhitespace(s.input)
  {
    !s.loading && Trim(s.input) != []
  }

  /** Lines 26-33: blank input is ignored; otherwise the trimmed text is
      appended as a timestamped user message, the input cleared, the loading
      flag set and the whole new transcript posted. The handler itself does
      not consult the loading flag. */
  function Submit(s: State, now: int): (r: Submitted)
    ensures AllWhitespace(s.input) <==> r.request.None?
    ensures AllWhitespace(s.input) ==> r.state == s
    ensures !AllWhitespace(s.input) ==>
      && |r.state.messages| == |s.messages| + 1
      && r.state.messages[..|s.messages|] == s.messages
      && r.state.messages[|s.messages|] == Msg(User, Trim(s.input), Some(now))
      && r.state.input == ""
      && r.state.loading
      && r.request == Some(r.state.messages)
  {
    var text := Trim(s.input);
    if text == [] then Submitted(s, None)
    else
      var next := s.messages + [Msg(User, text, Some(now))];
      Submitted(State(next, "", true), Some(next))
  }

  /** Lines 42-50: the reply of a turn that reaches line 50, with a missing
      `reply` read as ""; `None` when line 44 or a rejection throws. */
  function SuccessReply(o: FetchOutcome): (r: Option<string>)
    ensures r.Some? <==> o.Received? && o.ok && o.body.JsonBody?
    ensures r.Some? ==> r.value == o.body.reply.GetOr("")
  {
    match o
    case Received(true, JsonBody(reply)) => Some(reply.GetOr(""))
    case _ => None
  }

  /** Lines 35-64: exactly one assistant message is appended to the posted
      transcript `sent`: the reply without a timestamp, or the apology stamped
      `now`. Loading is cleared in every case; the input is not touched. */
  function Resolve(s: State, sent: seq<Msg>, o: FetchOutcome, now: int): (r: State)
    ensures |r.messages| == |sent| + 1 && r.messages[..|sent|] == sent
    ensures r.messages[|sent|].role == Assistant
    ensures SuccessReply(o).Some? ==> r.messages[|sent|] == Msg(Assistant, SuccessReply(o).value, None)
    ensures SuccessReply(o).None? ==> r.messages[|sent|] == Msg(Assistant, Apology, Some(now))
    ensures !r.loading && r.input == s.input
  {
    var answer :=
      match SuccessReply(o)
      case Some(reply) => Msg(Assistant, reply, None)
      case None => Msg(Assistant, Apology, Some(now));
    State(sent + [answer], s.input, false)
  }

  /** One whole submission: `Submit` at time `now`, then the request settles
      with `o` at time `later`. */
  function Turn(s: State, now: int, o: FetchOutcome, later: int): (r: State)
    ensures AllWhitespace(s.input) ==> r == s
    ensures !AllWhitespace(s.input) ==>
      !r.loading && r.input == "" && |r.messages| == |s.messages| + 2
  {
    var sub := Submit(s, now);
    match sub.request
    case None => sub.state
    case Some(sent) => Resolve(sub.state, sent, o, later)
  }

  /** Lines 30, 50 and 52-53: a completed turn keeps the old transcript as a
      prefix and adds exactly a user message and then an assistant message;
      blank input changes nothing. */
  lemma TurnAppendsExchange(s: State, now: int, o: FetchOutcome, later: int)
    ensures AllWhitespace(s.input) ==> Turn(s, now, o, later) == s
    ensures !AllWhitespace(s.input) ==>
      var r := Turn(s, now, o, later);
      && |r.messages| == |s.messages| + 2
      && r.messages[..|s.messages|] == s.messages
      && r.messages[|s.messages|] == Msg(User, Trim(s.input), Some(now))
      && r.messages[|s.messages| + 1].role == Assistant
      && r.input == "" && !r.loading
  {
    var sub := Submit(s, now);
    if !AllWhitespace(s.input) {
      var r := Resolve(sub.state, sub.state.messages, o, later);
      assert r.messages[..|s.messages|] == sub.state.messages[..|s.messages|];
    }
  }

  /** Line 182 against lines 27-28: an enabled button always leads to a
      request; a request from an idle page means the button was enabled. */
  lemma CanSubmitIffRequest(s: State, now: int)
    ensures CanSubmit(s) <==> !s.loading && Submit(s, now).request.Some?
  {
  }

  /** A transcript of complete exchanges: user, assistant, user, assistant, ... */
  predicate Alternating(ms: seq<Msg>) {
    && |ms| % 2 == 0
    && forall i :: 0 <= i < |ms| ==> ms[i].role == (if i % 2 == 0 then User else Assistant)
  }

  /** A user typing `input` (line 172) and submitting it, settled by `outcome`. */
  datatype TurnEvent = TurnEvent(input: string, now: int, outcome: FetchOutcome, later: int)

  function Run(s: State, events: seq<TurnEvent>): State
    decreases |events|
  {
    if |events| == 0 then s
    else
      var e := events[0];
      Run(Turn(s.(input := e.input), e.now, e.outcome, e.later), events[1..])
  }

  /** Appending a user message and then an assistant message keeps a
      transcript alternating and free of system messages. */
  lemma AppendExchangeAlternates(ms: seq<Msg>, u: Msg, a: Msg)
    requires Alternating(ms) && IsPageTranscript(ms)
    requires u.role == User && a.role == Assistant
    ensures Alternating(ms + [u, a]) && IsPageTranscript(ms + [u, a])
  {
    var t := ms + [u, a];
    forall i | 0 <= i < |t|
      ensures t[i].role == (if i % 2 == 0 then User else Assistant)
    {
      if i < |ms| { assert t[i] == ms[i]; }
    }
  }

  /** A turn from an idle page keeps the transcript alternating and the page idle. */
  lemma TurnPreservesAlternating(s: State, now: int, o: FetchOutcome, later: int)
    requires Alternating(s.messages) && IsPageTranscript(s.messages) && !s.loading
    ensures var r := Turn(s, now, o, later);
      Alternating(r.messages) && IsPageTranscript(r.messages) && !r.loading
  {
    TurnAppendsExchange(s, now, o, later);
    var r := Turn(s, now, o, later);
    if !AllWhitespace(s.input) {
      var n := |s.messages|;
      assert r.messages == r.messages[..n] + [r.messages[n], r.messages[n + 1]];
      AppendExchangeAlternates(s.messages, r.messages[n], r.messages[n + 1]);
    }
  }

  /** Every sequence of turns from the initial page leaves a transcript of
      alternating user and assistant messages, with no system message, and
      the page idle. */
  lemma {:induction false} RunAlternates(s: State, events: seq<TurnEvent>)
    requires Alternating(s.messages) && IsPageTranscript(s.messages) && !s.loading
    ensures var r := Run(s, events);
      Alternating(r.messages) && IsPageTranscript(r.messages) && !r.loading
    decreases |events|
  {
    if |events| > 0 {
      var e := events[0];
      TurnPreservesAlternating(s.(input := e.input), e.now, e.outcome, e.later);
      RunAlternates(Turn(s.(input := e.input), e.now, e.outcome, e.later), events[1..]);
    }
  }
}
