/** The HTTP response shapes the handlers produce. */
module Http {
  import opened Models

  const StatusOK := 200
  const StatusAccepted := 202
  const StatusBadRequest := 400
  const StatusUnauthorized := 401
  const StatusMethodNotAllowed := 405
  const StatusInternalServerError := 500

  /** What a handler writes back: an error text, the {message_id, status} acknowledgement, a
      message list, or nothing beyond the status. */
  datatype Body = Text(text: string) | Ack(messageId: string, state: string)
                | Messages(list: seq<Message>) | NoBody
  datatype Reply = Reply(status: int, body: Body)
}
