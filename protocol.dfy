/** The chat record and the frames the server sends over a connection. */
module Protocol {
  import opened Wrappers

  /** A chat message as persisted and as sent: `{sessionId, sender, content, timestamp}`. */
  datatype Message = Message(sessionId: string, sender: string, content: string, timestamp: int)

  /** Server-to-client frames, one constructor per `type`. */
  datatype OutFrame =
    | SessionFrame(sessionId: string, token: string, userEmail: Option<string>)
    | HistoryFrame(sessionId: string, history: seq<Message>)
    | MessageFrame(message: Message)
    | PongFrame(ts: int)
    | ErrorFrame(error: string)
}
