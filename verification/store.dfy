/** The durable message store of backend/src/store/mongo.go: a "messages" collection keyed by
    message_id, behind two package globals (the client and the collection handle). */
module Store {
  import opened Optional
  import opened Models
  import opened Trace

  /** The collection as a map from message_id to the stored document. */
  type Docs = map<string, Message>

  /** The unique index uniq_message_id: a document is stored under its own id, so there is at
      most one document per message_id. */
  predicate KeyedById(docs: Docs) {
    forall id :: id in docs ==> docs[id].messageId == id
  }

  /** m is the document stored under its id. Under the unique index this is the same as m
      being one of the stored documents. */
  predicate Stored(docs: Docs, m: Message) {
    m.messageId in docs && docs[m.messageId] == m
  }

  lemma StoredIsValue(docs: Docs, m: Message)
    requires KeyedById(docs)
    ensures Stored(docs, m) <==> m in docs.Values
  {
    if m in docs.Values {
      var id :| id in docs && docs[id] == m;
    }
  }

  /** Partway through a cursor: out holds, once each, the stored documents whose ids are no
      longer pending. */
  ghost predicate Collected(docs: Docs, pending: set<string>, out: seq<Message>) {
    && pending <= docs.Keys
    && |out| + |pending| == |docs|
    && (forall m :: m in out <==> m.messageId !in pending && Stored(docs, m))
    && (forall i, j :: 0 <= i < j < |out| ==> out[i].messageId != out[j].messageId)
  }

  /** How many documents a cursor over n documents hands out before Next reports false:
      all n, or failsAfter when the cursor fails that early. */
  function CursorYield(failsAfter: Option<nat>, n: nat): (k: nat)
    ensures k <= n
    ensures k == n || failsAfter == Some(k)
    ensures k == n <==> failsAfter.None? || failsAfter.value >= n
  {
    if failsAfter.Some? && failsAfter.value < n then failsAfter.value else n
  }

  /** A list of k stored messages, one per id, none of them among the documents that do not
      decode. */
  ghost predicate Listing(docs: Docs, undecodable: set<string>, k: nat, list: seq<Message>) {
    && |list| == k
    && (forall m :: m in list ==> Stored(docs, m) && m.messageId !in undecodable)
    && (forall i, j :: 0 <= i < j < |list| ==> list[i].messageId != list[j].messageId)
  }

  /** A cursor's account with no undecodable document taken is a listing of the documents
      taken so far. */
  lemma CollectedIsListing(docs: Docs, pending: set<string>, out: seq<Message>, undecodable: set<string>)
    requires Collected(docs, pending, out) && undecodable * (docs.Keys - pending) == {}
    ensures Listing(docs, undecodable, |out|, out)
  {
    forall m | m in out
      ensures m.messageId !in undecodable
    {
      assert m.messageId !in pending && Stored(docs, m);
      assert m.messageId in docs.Keys - pending;
      assert m.messageId !in undecodable * (docs.Keys - pending);
    }
  }

  /** Taking one more pending document keeps the cursor's account. */
  lemma CollectStep(docs: Docs, pending: set<string>, out: seq<Message>, id: string)
    requires KeyedById(docs) && Collected(docs, pending, out) && id in pending
    ensures Collected(docs, pending - {id}, out + [docs[id]])
  {
    var out' := out + [docs[id]];
    forall m
      ensures m in out' <==> m.messageId !in pending - {id} && Stored(docs, m)
    {
      if m == docs[id] {
        assert m in out';
      }
    }
    forall i, j | 0 <= i < j < |out'|
      ensures out'[i].messageId != out'[j].messageId
    {
      if j == |out| {
        assert out'[i] in out;
      }
    }
  }

  /** UpdateOne({message_id: m.MessageID}, {$setOnInsert: m}, upsert): insert m when no
      document has its id, and otherwise leave the stored document as it is. */
  function Upsert(docs: Docs, m: Message): (r: Docs)
    ensures m.messageId in r && r.Keys == docs.Keys + {m.messageId}
    ensures forall id :: id in docs ==> r[id] == docs[id]
    ensures m.messageId !in docs ==> r[m.messageId] == m
    ensures KeyedById(docs) ==> KeyedById(r)
  {
    if m.messageId in docs then docs else docs[m.messageId := m]
  }

  /** The effect of a sequence of upserts, in order. */
  function UpsertAll(docs: Docs, ms: seq<Message>): (r: Docs)
    decreases |ms|
  {
    if ms == [] then docs else UpsertAll(Upsert(docs, ms[0]), ms[1..])
  }

  /** The first message of ms carrying the given id, if any. */
  function FirstWithId(ms: seq<Message>, id: string): (r: Option<Message>)
    ensures r.Some? ==> r.value in ms && r.value.messageId == id
    ensures r.None? <==> forall i :: 0 <= i < |ms| ==> ms[i].messageId != id
    decreases |ms|
  {
    if ms == [] then None
    else if ms[0].messageId == id then Some(ms[0])
    else FirstWithId(ms[1..], id)
  }

  /** Inserting the same message twice has the effect of inserting it once. */
  lemma UpsertIdempotent(docs: Docs, m: Message)
    ensures Upsert(Upsert(docs, m), m) == Upsert(docs, m)
  {
  }

  /** A sequence of upserts keeps the collection keyed by message_id. */
  lemma {:induction false} UpsertAllKeepsKeyed(docs: Docs, ms: seq<Message>)
    requires KeyedById(docs)
    ensures KeyedById(UpsertAll(docs, ms))
    decreases |ms|
  {
    if ms != [] {
      UpsertAllKeepsKeyed(Upsert(docs, ms[0]), ms[1..]);
    }
  }

  /** First writer wins: after a sequence of inserts, a document already stored is unchanged,
      an id first seen in the sequence holds the first message that carried it, and no other
      id is stored. */
  lemma {:induction false} UpsertAllFirstWriterWins(docs: Docs, ms: seq<Message>, id: string)
    ensures id in docs ==> id in UpsertAll(docs, ms) && UpsertAll(docs, ms)[id] == docs[id]
    ensures id !in docs && FirstWithId(ms, id).Some? ==>
      id in UpsertAll(docs, ms) && UpsertAll(docs, ms)[id] == FirstWithId(ms, id).value
    ensures id !in docs && FirstWithId(ms, id).None? ==> id !in UpsertAll(docs, ms)
    decreases |ms|
  {
    if ms != [] {
      UpsertAllFirstWriterWins(Upsert(docs, ms[0]), ms[1..], id);
    }
  }

  /** Inserting a + b is inserting a, then b. */
  lemma {:induction false} UpsertAllAppend(docs: Docs, a: seq<Message>, b: seq<Message>)
    ensures UpsertAll(docs, a + b) == UpsertAll(UpsertAll(docs, a), b)
    decreases |a|
  {
    if a != [] {
      assert (a + b)[0] == a[0];
      assert (a + b)[1..] == a[1..] + b;
      UpsertAllAppend(Upsert(docs, a[0]), a[1..], b);
    } else {
      assert a + b == b;
    }
  }

  /** Replaying a sequence of inserts a second time changes nothing. */
  lemma {:induction false} UpsertAllIdempotent(docs: Docs, ms: seq<Message>)
    ensures UpsertAll(UpsertAll(docs, ms), ms) == UpsertAll(docs, ms)
  {
    var once := UpsertAll(docs, ms);
    var twice := UpsertAll(once, ms);
    forall id | true
      ensures id in twice <==> id in once
      ensures id in once ==> twice[id] == once[id]
    {
      UpsertAllFirstWriterWins(docs, ms, id);
      UpsertAllFirstWriterWins(once, ms, id);
    }
  }

  /** What Init's driver calls return, in the order Init makes them: mongo.Connect, the
      primary Ping, then index creation. */
  datatype InitOutcome = ConnectFailed(err: string) | PingFailed(err: string)
                       | IndexFailed(err: string) | Connected

  /** The package state: whether the client and the collection globals are non-nil, and the
      collection's contents. */
  class MongoStore {
    var clientSet: bool
    var collSet: bool
    var docs: Docs
    ghost const log: EventLog

    /** The package before Init: both globals nil, over a collection that may already hold
        documents from earlier runs. Inserts are recorded in log. */
    constructor (existing: Docs, ghost log: EventLog)
      requires KeyedById(existing)
      ensures !clientSet && !collSet && docs == existing && this.log == log
    {
      clientSet, collSet, docs := false, false, existing;
      this.log := log;
    }

    /** Init: a connect error leaves the client nil; a ping error leaves the collection handle
        as it was; an index error comes after the collection handle is set. Each error is
        wrapped with the step's prefix. The stored documents are not touched. */
    method Init(outcome: InitOutcome) returns (err: Option<string>)
      modifies this
      ensures docs == old(docs)
      ensures outcome.ConnectFailed? ==>
        err == Some("mongo connect: " + outcome.err) && !clientSet && collSet == old(collSet)
      ensures outcome.PingFailed? ==>
        err == Some("mongo ping: " + outcome.err) && clientSet && collSet == old(collSet)
      ensures outcome.IndexFailed? ==>
        err == Some("ensure indexes: " + outcome.err) && clientSet && collSet
      ensures outcome.Connected? ==> err == None && clientSet && collSet
    {
      match outcome {
        case ConnectFailed(e) =>
          clientSet := false;
          return Some("mongo connect: " + e);
        case PingFailed(e) =>
          clientSet := true;
          return Some("mongo ping: " + e);
        case IndexFailed(e) =>
          clientSet, collSet := true, true;
          return Some("ensure indexes: " + e);
        case Connected =>
          clientSet, collSet := true, true;
          return None;
      }
    }

    /** Close: nothing to do without a client; otherwise the driver's Disconnect result. */
    method Close(disconnectErr: Option<string>) returns (err: Option<string>)
      ensures !clientSet ==> err == None
      ensures clientSet ==> err == disconnectErr
    {
      if !clientSet {
        return None;
      }
      return disconnectErr;
    }

    /** Ping: an error before Init, otherwise the driver's ping result. */
    method Ping(pingErr: Option<string>) returns (err: Option<string>)
      ensures !clientSet ==> err == Some("mongo client not initialized")
      ensures clientSet ==> err == pingErr
    {
      if !clientSet {
        return Some("mongo client not initialized");
      }
      return pingErr;
    }

    /** InsertMessage: an error and no change before Init; otherwise the upsert, or the
        driver's error with the collection unchanged. */
    method InsertMessage(msg: Message, driverErr: Option<string>) returns (err: Option<string>)
      modifies this, log
      ensures log.events == old(log.events) + [InsertCalled(msg)]
      ensures clientSet == old(clientSet) && collSet == old(collSet)
      ensures !collSet ==> err == Some("messages collection not initialized") && docs == old(docs)
      ensures collSet && driverErr.Some? ==> err == driverErr && docs == old(docs)
      ensures collSet && driverErr.None? ==> err == None && docs == Upsert(old(docs), msg)
      ensures KeyedById(old(docs)) ==> KeyedById(docs)
    {
      log.events := log.events + [InsertCalled(msg)];
      if !collSet {
        return Some("messages collection not initialized");
      }
      if driverErr.Some? {
        return driverErr;
      }
      docs := Upsert(docs, msg);
      return None;
    }

    /** GetAllMessages: an error before Init, on a failed Find, or when a document the cursor
        hands out does not decode; otherwise the messages the cursor handed out, once each.
        The loop stops when Next reports false, and the cursor's own error is never checked:
        a cursor that fails after failsAfter documents (a failed getMore, a cancelled
        context) yields a shorter list with no error. The query has an empty filter and no
        sort, so the cursor order is left open: the loop takes the documents in any order. */
    method GetAllMessages(findErr: Option<string>, undecodable: set<string>, decodeErr: string,
                          failsAfter: Option<nat>)
      returns (r: Result<seq<Message>>)
      requires KeyedById(docs)
      ensures !collSet ==> r == Err("messages collection not initialized")
      ensures collSet && findErr.Some? ==> r == Err(findErr.value)
      ensures collSet && findErr.None? && undecodable * docs.Keys == {} ==> r.Ok?
      ensures collSet && findErr.None? && r.Err? ==> r == Err(decodeErr) && undecodable * docs.Keys != {}
      ensures collSet && findErr.None? && CursorYield(failsAfter, |docs|) == |docs| && undecodable * docs.Keys != {} ==>
        r == Err(decodeErr)
      ensures r.Ok? ==> Listing(docs, undecodable, CursorYield(failsAfter, |docs|), r.value)
      ensures r.Ok? && CursorYield(failsAfter, |docs|) == |docs| ==> forall m :: m in r.value <==> Stored(docs, m)
    {
      if !collSet {
        return Err("messages collection not initialized");
      }
      if findErr.Some? {
        return Err(findErr.value);
      }
      var pending := docs.Keys;
      var out: seq<Message> := [];
      while pending != {} && (failsAfter.None? || |out| < failsAfter.value)
        invariant Collected(docs, pending, out)
        invariant failsAfter.Some? ==> |out| <= failsAfter.value
        invariant undecodable * (docs.Keys - pending) == {}
        decreases |pending|
      {
        var id :| id in pending;
        if id in undecodable {
          assert id in undecodable * docs.Keys;
          return Err(decodeErr);
        }
        CollectStep(docs, pending, out, id);
        out := out + [docs[id]];
        pending := pending - {id};
      }
      CollectedIsListing(docs, pending, out, undecodable);
      return Ok(out);
    }

    /** PruneOldMessages: a placeholder that removes nothing and reports no error. */
    method PruneOldMessages(olderThan: int) returns (err: Option<string>)
      ensures err == None
    {
      return None;
    }
  }
}
