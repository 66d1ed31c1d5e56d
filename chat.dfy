/**
  The chat screen of the InstantDoc app: the transcript of the conversation
  with the first-aid assistant and the text input. The request to the
  backend's `/gemini` route is replaced by its outcome.
 */
module Chat {
  import opened Js
  import Backend

  datatype Sender = User | Bot

  datatype Message = Message(sender: Sender, text: string)

  /**
    How `axios.post(".../gemini")` settled: resolved with the reply's
    `data.reply` ("" when absent), or rejected.
   */
  datatype ChatReply = Answered(reply: string) | ChatFailed

  const NoResponse := "No response"
  const ErrorReply := "Error getting response. Try again!"

  /** The bot's text: the reply, its fallback when the reply is empty, or the error text. */
  function BotText(outcome: ChatReply): (r: string)
    ensures r != ""
    ensures outcome.ChatFailed? ==> r == ErrorReply
    ensures outcome.Answered? ==> r == (if outcome.reply != "" then outcome.reply else NoResponse)
  {
    match outcome
    case Answered(reply) => if reply != "" then reply else NoResponse
    case ChatFailed => ErrorReply
  }

  /** What the screen receives from a backend response: axios resolves on a 2xx status only. */
  function ReplyOf(res: Backend.Response): (r: ChatReply)
    ensures r.Answered? <==> 200 <= res.status < 300
    ensures r.Answered? && res.body.Reply? ==> r.reply == res.body.reply
    ensures r.Answered? && !res.body.Reply? ==> BotText(r) == NoResponse
  {
    if 200 <= res.status < 300 then Answered(if res.body.Reply? then res.body.reply else "")
    else ChatFailed
  }

  /**
    Against the backend's `/gemini` route the screen shows the backend's reply
    text verbatim, or its own error text when the provider call failed; its
    "No response" fallback is never needed, because the backend never replies
    with an empty text.
   */
  lemma BackendReplyShownVerbatim(upstream: Option<Backend.GeminiData>)
    ensures upstream.None? ==> BotText(ReplyOf(Backend.AskGemini(upstream))) == ErrorReply
    ensures upstream.Some? ==>
              && ReplyOf(Backend.AskGemini(upstream)) == Answered(Backend.ExtractReply(upstream.value))
              && BotText(ReplyOf(Backend.AskGemini(upstream))) == Backend.ExtractReply(upstream.value)
  {
  }

  class ChatScreen {
    var messages: seq<Message>
    var input: string

    constructor ()
      ensures messages == [] && input == ""
    {
      messages := [];
      input := "";
    }

    /**
      `sendMessage`: a blank input is ignored; otherwise the user's message
      (untrimmed) and then the bot's are appended, and the input is cleared.
      `sent` says whether the request was made.
     */
    method SendMessage(outcome: ChatReply) returns (sent: bool)
      modifies this
      ensures sent <==> !IsBlank(old(input))
      ensures !sent ==> messages == old(messages) && input == old(input)
      ensures sent ==>
                && messages == old(messages) + [Message(User, old(input)), Message(Bot, BotText(outcome))]
                && input == ""
    {
      if IsBlank(input) {
        return false;
      }
      sent := true;
      messages := messages + [Message(User, input)];
      messages := messages + [Message(Bot, BotText(outcome))];
      input := "";
    }
  }
}
