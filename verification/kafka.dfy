/** The bus client of backend/src/kafka/kafka.go: a shared writer chosen by topic, a
    publish with bounded retries, a single-shot dead-letter write, and a reader that forwards
    the messages it can decode. */
module Kafka {
  import opened Optional
  import opened Models
  import opened Trace

  /** A kafka.Writer as far as the code can tell them apart: its topic, and whether it is
      the package's shared writer or a fresh one. */
  datatype WriterHandle = WriterHandle(topic: string, shared: bool)

  /** The JSON value of a record: a chat message, or the dead-letter envelope
      {message, reason, failed_at}. */
  datatype Payload = Plain(msg: Message)
                   | DeadLetter(msg: Message, reason: string, failedAt: Time)

  /** One record accepted by the broker: the topic, the key (the message id) and the value. */
  datatype Record = Record(topic: string, key: string, value: Payload)

  /** Publish attempts per message and the base delay between them, in milliseconds. */
  const MaxAttempts: nat := 5
  const BaseDelayMs: nat := 50
  const RetryErrorPrefix := "kafka write failed after retries: "

  /** getWriter: the writer a call with this topic gets, given the topic the shared writer was
      created with on the first call (None before any call). */
  function WriterFor(sharedTopic: Option<string>, topic: string): (w: WriterHandle)
    ensures w.topic == topic
    ensures w.shared <==> sharedTopic.None? || sharedTopic.value == topic
  {
    match sharedTopic
    case None => WriterHandle(topic, true)
    case Some(t) => WriterHandle(topic, t == topic)
  }

  /** The wait after failed attempt k. */
  function BackoffMs(k: nat): (d: nat)
    ensures k > 0 ==> d >= BaseDelayMs
  {
    BaseDelayMs * k * k
  }

  /** The waits after failed attempts 1..n, in order. */
  function Sleeps(n: nat): (s: seq<nat>)
    ensures |s| == n
    ensures forall i :: 0 <= i < n ==> s[i] == BackoffMs(i + 1)
  {
    if n == 0 then [] else Sleeps(n - 1) + [BackoffMs(n)]
  }

  /** Whether one of the MaxAttempts attempts succeeds, given each attempt's error (None when
      the broker accepted the write). */
  predicate Succeeds(outcome: nat -> Option<string>) {
    exists k :: 1 <= k <= MaxAttempts && outcome(k).None?
  }

  /** The number of attempts made from attempt k on: up to and including the first success,
      and never past MaxAttempts. */
  function AttemptsFrom(outcome: nat -> Option<string>, k: nat): (n: nat)
    requires 1 <= k <= MaxAttempts
    ensures k <= n <= MaxAttempts
    ensures forall j :: k <= j < n ==> outcome(j).Some?
    ensures n < MaxAttempts ==> outcome(n).None?
    decreases MaxAttempts - k
  {
    if outcome(k).None? || k == MaxAttempts then k else AttemptsFrom(outcome, k + 1)
  }

  function Attempts(outcome: nat -> Option<string>): (n: nat)
    ensures 1 <= n <= MaxAttempts
  {
    AttemptsFrom(outcome, 1)
  }

  /** The attempts stop at the first success: the publish succeeds exactly when the last
      attempt made succeeded, and every earlier attempt failed. */
  lemma AttemptsStopAtFirstSuccess(outcome: nat -> Option<string>)
    ensures Succeeds(outcome) <==> outcome(Attempts(outcome)).None?
    ensures forall j :: 1 <= j < Attempts(outcome) ==> outcome(j).Some?
  {
    var n := Attempts(outcome);
    if Succeeds(outcome) {
      var k :| 1 <= k <= MaxAttempts && outcome(k).None?;
      assert k >= n;
    }
  }

  /** The waits when every attempt fails: 50, 200, 450, 800 and 1250 ms, one after each of the
      five attempts including the last. */
  lemma AllFailedSleeps()
    ensures Sleeps(MaxAttempts) == [50, 200, 450, 800, 1250]
  {
  }

  /** The waits of one publish: one after each failed attempt. */
  function RetrySleeps(outcome: nat -> Option<string>): (s: seq<nat>)
    ensures |s| <= MaxAttempts
  {
    if Succeeds(outcome) then Sleeps(Attempts(outcome) - 1) else Sleeps(MaxAttempts)
  }

  /** A dead-letter attempt for a message, with the reason and the time of failure. */
  function DeadLetterRecord(dlqTopic: string, msg: Message, reason: string, now: Time): (r: Record)
    ensures r.topic == dlqTopic && r.key == msg.messageId
    ensures r.value.DeadLetter? && r.value.msg == msg && r.value.reason == reason
  {
    Record(dlqTopic, msg.messageId, DeadLetter(msg, reason, now))
  }

  /** One ReadMessage result: a payload that decodes to a message or does not, or a read
      error (which is what a cancelled context produces as well). */
  datatype ReadEvent = Payload(decoded: Option<Message>) | ReadFailed

  /** The messages Reader puts on the channel for a sequence of reads: the decoded ones, in
      read order, up to the first read error. */
  function Forwarded(events: seq<ReadEvent>): (r: seq<Message>)
    ensures |r| <= |events|
    decreases |events|
  {
    if events == [] then []
    else if events[0].ReadFailed? then []
    else match events[0].decoded
      case None => Forwarded(events[1..])
      case Some(m) => [m] + Forwarded(events[1..])
  }

  /** Reads up to the first error extend the forwarded sequence at its end. */
  lemma {:induction false} ForwardedAppend(events: seq<ReadEvent>, e: ReadEvent)
    requires forall i :: 0 <= i < |events| ==> events[i].Payload?
    ensures e.ReadFailed? ==> Forwarded(events + [e]) == Forwarded(events)
    ensures e.Payload? && e.decoded.None? ==> Forwarded(events + [e]) == Forwarded(events)
    ensures e.Payload? && e.decoded.Some? ==> Forwarded(events + [e]) == Forwarded(events) + [e.decoded.value]
    decreases |events|
  {
    if events != [] {
      assert (events + [e])[1..] == events[1..] + [e];
      ForwardedAppend(events[1..], e);
    }
  }

  /** Nothing read after the first read error is forwarded. */
  lemma {:induction false} ForwardedStopsAtError(before: seq<ReadEvent>, after: seq<ReadEvent>)
    ensures Forwarded(before + [ReadFailed] + after) == Forwarded(before + [ReadFailed])
    decreases |before|
  {
    if before != [] {
      assert (before + [ReadFailed] + after)[1..] == before[1..] + [ReadFailed] + after;
      assert (before + [ReadFailed])[1..] == before[1..] + [ReadFailed];
      ForwardedStopsAtError(before[1..], after);
    }
  }

  /** Every forwarded message was decoded from some read, and decoded reads before the first
      error are all forwarded. */
  lemma {:induction false} ForwardedDecoded(events: seq<ReadEvent>, m: Message)
    ensures m in Forwarded(events) ==> exists i :: 0 <= i < |events| && events[i] == Payload(Some(m))
    ensures (exists i :: 0 <= i < |events| && events[i] == Payload(Some(m)) && NoErrorBefore(events, i)) ==>
      m in Forwarded(events)
    decreases |events|
  {
    if events != [] && events[0].Payload? {
      ForwardedDecoded(events[1..], m);
      if m in Forwarded(events) && events[0] != Payload(Some(m)) {
        var i :| 0 <= i < |events[1..]| && events[1..][i] == Payload(Some(m));
        assert events[i + 1] == Payload(Some(m));
      }
      if i :| 0 <= i < |events| && events[i] == Payload(Some(m)) && NoErrorBefore(events, i) {
        if i > 0 && events[0] != Payload(Some(m)) {
          assert events[1..][i - 1] == Payload(Some(m));
          assert NoErrorBefore(events[1..], i - 1) by {
            forall j | 0 <= j < i - 1
              ensures events[1..][j].Payload?
            {
              assert events[j + 1].Payload?;
            }
          }
        }
      }
    }
  }

  /** No read before position i failed. */
  predicate NoErrorBefore(events: seq<ReadEvent>, i: nat)
    requires i <= |events|
  {
    forall j :: 0 <= j < i ==> events[j].Payload?
  }

  /** Reader: forwards each decoded message in read order, skips payloads that do not decode
      and returns on the first read error. The read stream is finite here; a stream that
      ends without an error stands for a reader still blocked on its next read. */
  method Reader(events: seq<ReadEvent>) returns (forwarded: seq<Message>)
    ensures forwarded == Forwarded(events)
  {
    forwarded := [];
    var i := 0;
    while i < |events|
      invariant 0 <= i <= |events|
      invariant forall j :: 0 <= j < i ==> events[j].Payload?
      invariant forwarded == Forwarded(events[..i])
    {
      var e := events[i];
      ForwardedAppend(events[..i], e);
      assert events[..i + 1] == events[..i] + [e];
      if e.ReadFailed? {
        ForwardedStopsAtError(events[..i], events[i + 1..]);
        assert events == events[..i] + [ReadFailed] + events[i + 1..];
        return;
      }
      if e.decoded.None? {
        i := i + 1;
        continue;
      }
      forwarded := forwarded + [e.decoded.value];
      i := i + 1;
    }
    assert events[..i] == events;
  }

  /** The package state: the topic of the shared writer (None until getWriter first runs),
      the configured topics, and every record the broker accepted, in order. */
  class Bus {
    var sharedTopic: Option<string>
    var published: seq<Record>
    const topic: string
    const dlqTopic: string
    ghost const log: EventLog

    /** The package before any write; dead-letter writes are recorded in log. */
    constructor (topic: string, dlqTopic: string, ghost log: EventLog)
      ensures sharedTopic == None && published == []
      ensures this.topic == topic && this.dlqTopic == dlqTopic && this.log == log
    {
      this.topic, this.dlqTopic, this.log := topic, dlqTopic, log;
      sharedTopic, published := None, [];
    }

    /** getWriter: the first call creates the shared writer for its topic; a later call with
        that topic gets it back, and a call with any other topic gets a fresh writer. */
    method GetWriter(t: string) returns (w: WriterHandle)
      modifies this
      ensures w == WriterFor(old(sharedTopic), t)
      ensures sharedTopic == (if old(sharedTopic).None? then Some(t) else old(sharedTopic))
      ensures published == old(published)
    {
      w := WriterFor(sharedTopic, t);
      if sharedTopic.None? {
        sharedTopic := Some(t);
      }
    }

    /** Writer: a marshal error is returned before any writer is chosen; otherwise up to
        MaxAttempts writes of the message keyed by its id, stopping at the first success,
        with a wait after every failed attempt, the last included. The context is only the
        parent of each attempt's own timeout, so cancellation shows up as failed attempts
        and cannot end the loop early. */
    method Writer(msg: Message, marshalErr: Option<string>, outcome: nat -> Option<string>)
      returns (err: Option<string>, ghost attempts: nat, ghost sleeps: seq<nat>)
      modifies this
      ensures marshalErr.Some? ==>
        err == marshalErr && attempts == 0 && sleeps == [] && unchanged(this)
      ensures marshalErr.None? ==>
        sharedTopic == (if old(sharedTopic).None? then Some(topic) else old(sharedTopic))
      ensures marshalErr.None? ==> attempts == Attempts(outcome) && sleeps == RetrySleeps(outcome)
      ensures marshalErr.None? && Succeeds(outcome) ==>
        err == None && published == old(published) + [Record(topic, msg.messageId, Plain(msg))]
      ensures marshalErr.None? && !Succeeds(outcome) ==>
        err == Some(RetryErrorPrefix + outcome(MaxAttempts).value) && published == old(published)
    {
      if marshalErr.Some? {
        return marshalErr, 0, [];
      }
      var w := GetWriter(topic);
      var attempt := 1;
      var lastErr: Option<string> := None;
      sleeps := [];
      AttemptsStopAtFirstSuccess(outcome);
      while attempt <= MaxAttempts
        invariant 1 <= attempt <= MaxAttempts + 1
        invariant attempt <= Attempts(outcome) + 1
        invariant forall j :: 1 <= j < attempt ==> outcome(j).Some?
        invariant attempt > 1 ==> lastErr == outcome(attempt - 1)
        invariant sleeps == Sleeps(attempt - 1)
        invariant published == old(published)
        decreases MaxAttempts + 1 - attempt
      {
        lastErr := outcome(attempt);
        if lastErr.None? {
          published := published + [Record(w.topic, msg.messageId, Plain(msg))];
          break;
        }
        sleeps := sleeps + [BackoffMs(attempt)];
        attempt := attempt + 1;
      }
      attempts := if attempt > MaxAttempts then MaxAttempts else attempt;
      if lastErr.Some? {
        return Some(RetryErrorPrefix + lastErr.value), attempts, sleeps;
      }
      return None, attempts, sleeps;
    }

    /** DLQWriter: a marshal error is returned before any writer is chosen; otherwise exactly
        one write of the dead-letter envelope keyed by the message id to the dead-letter
        topic, whose error is returned as it is. */
    method DLQWriter(msg: Message, reason: string, now: Time, marshalErr: Option<string>,
                     writeErr: Option<string>) returns (err: Option<string>)
      modifies this, log
      ensures log.events == old(log.events) + [DeadLetterCalled(msg)]
      ensures marshalErr.Some? ==> err == marshalErr && unchanged(this)
      ensures marshalErr.None? ==> err == writeErr
      ensures marshalErr.None? && writeErr.None? ==>
        published == old(published) + [DeadLetterRecord(dlqTopic, msg, reason, now)]
      ensures marshalErr.None? && writeErr.Some? ==> published == old(published)
      ensures marshalErr.None? ==>
        sharedTopic == (if old(sharedTopic).None? then Some(dlqTopic) else old(sharedTopic))
    {
      log.events := log.events + [DeadLetterCalled(msg)];
      if marshalErr.Some? {
        return marshalErr;
      }
      var w := GetWriter(dlqTopic);
      if writeErr.Some? {
        return writeErr;
      }
      published := published + [DeadLetterRecord(w.topic, msg, reason, now)];
      return None;
    }
  }
}
