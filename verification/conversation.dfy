/** The page and the endpoint together: what the provider receives for a
    transcript the page posts. */
module Conversation {
  import opened Wrappers
  import opened Messages
  import opened ChatDirect
  import opened ChatPage
  import Text

  /** `JSON.stringify({ messages: next })` read back by the endpoint: each
      page message arrives as a message object, in order. */
  function Wire(ms: seq<Msg>): (r: seq<Entry>)
    ensures |r| == |ms|
    ensures forall i :: 0 <= i < |ms| ==> r[i] == Message(ms[i])
  {
    if |ms| == 0 then [] else [Message(ms[0])] + Wire(ms[1..])
  }

  function RequestOf(ms: seq<Msg>): RequestBody {
    Parsed(AnArray(Wire(ms)))
  }

  predicate SystemOnlyAtHead(xs: seq<Entry>) {
    && |xs| > 0
    && IsSystem(xs[0])
    && forall i :: 1 <= i < |xs| ==> !IsSystem(xs[i])
  }

  /** A transcript the page can hold is always sent upstream behind the
      persona, in its own order, and the persona is the only system message. */
  lemma PageTranscriptGetsPersona(ms: seq<Msg>, upstream: seq<Entry> -> UpstreamResult)
    requires IsPageTranscript(ms)
    ensures Post(RequestOf(ms), upstream).sent == Some([Message(SystemMessage)] + Wire(ms))
    ensures SystemOnlyAtHead([Message(SystemMessage)] + Wire(ms))
  {
    var w := Wire(ms);
    assert forall i :: 0 <= i < |w| ==> !IsSystem(w[i]) && !w[i].Null?;
    assert FindSystem(w) == NotFound;
  }

  /** Whatever turns have happened, the next message posted from the page
      reaches the provider as the persona followed by the whole transcript. */
  lemma NextRequestGetsPersona(events: seq<TurnEvent>, input: string, now: int,
                               upstream: seq<Entry> -> UpstreamResult)
    requires !Text.AllWhitespace(input)
    ensures var s := Run(Initial, events).(input := input);
      var sub := Submit(s, now);
      && sub.request.Some?
      && Post(RequestOf(sub.request.value), upstream).sent
         == Some([Message(SystemMessage)] + Wire(s.messages + [Msg(User, Text.Trim(input), Some(now))]))
      && SystemOnlyAtHead([Message(SystemMessage)] + Wire(sub.request.value))
  {
    RunAlternates(Initial, events);
    var s := Run(Initial, events).(input := input);
    var sub := Submit(s, now);
    assert sub.request.value == s.messages + [Msg(User, Text.Trim(input), Some(now))] by {
      assert sub.state.messages == sub.state.messages[..|s.messages|] + [sub.state.messages[|s.messages|]];
    }
    PageTranscriptGetsPersona(sub.request.value, upstream);
  }
}
