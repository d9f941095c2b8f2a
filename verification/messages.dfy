/** The message records both halves of the application exchange. The route
    accepts any role; the page only ever creates user and assistant messages. */
module Messages {
  import opened Wrappers

  /** A role string the three known roles do not cover. */
  type OtherRoleName = s: string | s != "system" && s != "user" && s != "assistant"
    witness "tool"

  /** A message role. The route treats an `Unrecognized` role like any other
      non-system role and passes it through. */
  datatype Role = System | User | Assistant | Unrecognized(name: OtherRoleName)

  /** A message: a role, a text and an optional creation time in
      milliseconds since the epoch (`createdAt`, omitted when undefined). */
  datatype Msg = Msg(role: Role, content: string, createdAt: Option<int>)

  /** The roles the page's own message type admits. */
  predicate IsPageRole(r: Role) {
    r == User || r == Assistant
  }

  /** Every message of a transcript has a page role, so none is a system message. */
  predicate IsPageTranscript(ms: seq<Msg>) {
    forall i :: 0 <= i < |ms| ==> IsPageRole(ms[i].role)
  }

  /** The fixed persona instruction of the completion endpoint, character for
      character, including the line breaks and indentation of its template
      literal. */
  const Persona: string :=
    "You are JPChat, an assistant that only responds to questions or conversations related to movies, TV shows, cinema history, actors, directors, genres, trivia, recommendations, and behind-the-scenes facts. \n" +
    "                If the user asks about something unrelated to these topics, you must find a creative and entertaining way to relate it to a movie, TV show, or cinematic moment, so that the conversation always stays connected to film and television. \n" +
    "                You can respond in any language based on the user's input language.\n" +
    "                "

  /** The persona message prepended when the incoming list has no system message. */
  const SystemMessage: Msg := Msg(System, Persona, None)

  /** The user half of the two-message fallback seed. */
  const SeedGreeting: Msg := Msg(User, "Say hi in one short sentence.", None)
}
