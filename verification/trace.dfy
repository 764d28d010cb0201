/** The calls the relay loops make into the hub, the store and the dead-letter producer, in
    the order they are made. The log is ghost: it is shared by those three objects, and each
    of the calls appends itself to it, so the order the loops promise can be stated about the
    calls themselves. */
module Trace {
  import opened Models

  datatype Event = Broadcasted(msg: Message) | InsertCalled(msg: Message) | DeadLetterCalled(msg: Message)

  class EventLog {
    ghost var events: seq<Event>

    constructor ()
      ensures events == []
    {
      events := [];
    }
  }
}
