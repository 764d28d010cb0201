/** The chat message record shared by every component. */
module Models {

  /** A timestamp in the model: an integer count of time units, where 0 is Go's zero
      time.Time (the value `Timestamp.IsZero()` reports). */
  type Time = int

  const ZeroTime: Time := 0

  predicate IsZero(t: Time) { t == ZeroTime }

  /** models.Message: message_id, user_id, content and timestamp. Content is a string whose
      elements stand for the bytes Go's `len` counts. */
  datatype Message = Message(messageId: string, userId: string, content: string, timestamp: Time)
}
