/** The backend's entry point (backend/src/main.go): the MESSAGE_MAX_LENGTH setting, the
    websocket read loop, the /messages handler behind the OIDC middleware, and the loop that
    relays bus messages to the raw client map, the store and the dead-letter topic. Unlike
    the api package it keeps connections in a package map and evicts a client whose write
    fails. */
module BackendMain {
  import opened Optional
  import opened Models
  import opened Strconv
  import opened Config
  import opened Websocket
  import opened Store
  import opened Kafka
  import opened Http
  import opened Oidc
  import opened Trace
  import ApiServer

  const DefaultMaxMsgLen := 1000
  const MaxLenVar := "MESSAGE_MAX_LENGTH"
  const PersistFailureReason := "mongo_persist_failure"

  /** maxMsgLen after start-up: 1000, replaced by MESSAGE_MAX_LENGTH only when that parses
      as a positive integer. The inline parse agrees with the api package's ParseMaxLen. */
  function MaxMsgLenFrom(env: Env): (n: int)
    ensures n > 0
    ensures n == ApiServer.ParseMaxLen(Getenv(env, MaxLenVar), DefaultMaxMsgLen)
  {
    var v := Getenv(env, MaxLenVar);
    if v != "" && Atoi(v).Some? && Atoi(v).value > 0 then Atoi(v).value else DefaultMaxMsgLen
  }

  /** What kafka.Writer is given by its environment for one publish: the marshal error, and
      the error of each write attempt. */
  datatype Publish = Publish(marshalErr: Option<string>, outcome: nat -> Option<string>)

  /** Whether kafka.Writer returns nil. */
  predicate Delivered(p: Publish) { p.marshalErr.None? && Succeeds(p.outcome) }

  /** The shared writer's topic moves at most once, from unset to t. */
  predicate SharedTopicAfter(before: Option<string>, after: Option<string>, t: string) {
    after == before || (before.None? && after == Some(t))
  }

  /** The record the broker holds after a delivered publish of m. */
  function PlainRecord(topic: string, m: Message): (r: Record)
    ensures r.topic == topic && r.key == m.messageId && r.value == Plain(m)
  {
    Record(topic, m.messageId, Plain(m))
  }

  /** Whether a message passes the length check and validateMessageSchema (None when valid). */
  predicate Admitted(m: Message, maxLen: int, validate: Message -> Option<string>) {
    |m.content| <= maxLen && validate(m).None?
  }

  /** One websocket frame read by handleConnections, with the fresh uuid, the clock and the
      publish outcome for it. */
  datatype WsFrame = WsFrame(msg: Message, freshId: string, now: Time, publish: Publish)

  function Filled(f: WsFrame): Message { ApiServer.NormalizeWs(f.msg, f.freshId, f.now) }

  /** The records one frame leaves on the bus: its filled-in message when it is admitted and
      the publish is delivered, nothing otherwise. */
  function FrameRecords(f: WsFrame, maxLen: int, validate: Message -> Option<string>, topic: string): seq<Record> {
    if Admitted(Filled(f), maxLen, validate) && Delivered(f.publish) then [PlainRecord(topic, Filled(f))] else []
  }

  /** The records the first n frames leave on the bus, in order. */
  function WsRecords(fs: seq<WsFrame>, n: nat, maxLen: int, validate: Message -> Option<string>, topic: string): seq<Record>
    requires n <= |fs|
  {
    if n == 0 then [] else WsRecords(fs, n - 1, maxLen, validate, topic) + FrameRecords(fs[n - 1], maxLen, validate, topic)
  }

  /** Only admitted, filled-in messages reach the bus, at most one per frame. */
  lemma {:induction false} WsRecordsAdmitted(fs: seq<WsFrame>, n: nat, maxLen: int, validate: Message -> Option<string>, topic: string)
    requires n <= |fs|
    ensures |WsRecords(fs, n, maxLen, validate, topic)| <= n
    ensures forall r :: r in WsRecords(fs, n, maxLen, validate, topic) ==>
      r.topic == topic && r.value.Plain? && r.key == r.value.msg.messageId && Admitted(r.value.msg, maxLen, validate)
  {
    if n > 0 {
      WsRecordsAdmitted(fs, n - 1, maxLen, validate, topic);
    }
  }

  /** A frame whose publish fails leaves nothing behind: there is no fallback broadcast or
      insert on this path. */
  lemma UndeliveredFrameLeavesNothing(f: WsFrame, maxLen: int, validate: Message -> Option<string>, topic: string)
    requires !Delivered(f.publish)
    ensures FrameRecords(f, maxLen, validate, topic) == []
  {
  }

  /** A request to /messages with what its environment supplies: the decoded body or the
      decoder's error, a fresh uuid, the clock and the publish outcome for a POST; the
      store's behaviour for a GET. */
  datatype Request =
    | PostMsg(body: Result<Message>, freshId: string, now: Time, publish: Publish)
    | GetAll(findErr: Option<string>, undecodable: set<string>, decodeErr: string, failsAfter: Option<nat>)
    | OtherMethod

  /** The reply to a POST: the length check and the validator see the message as sent; the
      id is filled only when empty and the timestamp is always the server's. */
  function PostReply(body: Result<Message>, maxLen: int, validate: Message -> Option<string>,
                     freshId: string, now: Time, publish: Publish): (r: Reply)
    ensures body.Err? ==> r == Reply(StatusBadRequest, Text(body.error))
    ensures body.Ok? && |body.value.content| > maxLen ==> r == Reply(StatusBadRequest, Text("message too long"))
    ensures body.Ok? && |body.value.content| <= maxLen && validate(body.value).Some? ==>
      r == Reply(StatusBadRequest, Text("Invalid message schema: " + validate(body.value).value))
    ensures body.Ok? && Admitted(body.value, maxLen, validate) && !Delivered(publish) ==>
      r == Reply(StatusInternalServerError, Text("Failed to enqueue message"))
    ensures r.status == StatusAccepted <==> body.Ok? && Admitted(body.value, maxLen, validate) && Delivered(publish)
    ensures r.status == StatusAccepted ==>
      r.body == Ack(ApiServer.PostMessage(body.value, freshId, now).messageId, "enqueued")
  {
    if body.Err? then Reply(StatusBadRequest, Text(body.error))
    else if |body.value.content| > maxLen then Reply(StatusBadRequest, Text("message too long"))
    else if validate(body.value).Some? then
      Reply(StatusBadRequest, Text("Invalid message schema: " + validate(body.value).value))
    else if !Delivered(publish) then Reply(StatusInternalServerError, Text("Failed to enqueue message"))
    else Reply(StatusAccepted, Ack(ApiServer.PostMessage(body.value, freshId, now).messageId, "enqueued"))
  }

  /** The validator judges the message as the client sent it, before the id and timestamp
      are filled in: two validators that agree on the raw message give the same reply. */
  lemma PostValidatesRawMessage(body: Result<Message>, maxLen: int, v1: Message -> Option<string>,
                                v2: Message -> Option<string>, freshId: string, now: Time, publish: Publish)
    requires body.Ok? ==> v1(body.value) == v2(body.value)
    ensures PostReply(body, maxLen, v1, freshId, now, publish) == PostReply(body, maxLen, v2, freshId, now, publish)
  {
  }

  /** The records an accepted POST leaves on the bus. */
  function PostRecords(body: Result<Message>, maxLen: int, validate: Message -> Option<string>,
                       freshId: string, now: Time, publish: Publish, topic: string): seq<Record> {
    if body.Ok? && Admitted(body.value, maxLen, validate) && Delivered(publish)
    then [PlainRecord(topic, ApiServer.PostMessage(body.value, freshId, now))] else []
  }

  /** One bus message taken off the broadcast channel, with the connections whose write
      fails, the store driver's result for the insert, and the clock and outcomes of the
      dead-letter write that follows a failed insert. */
  datatype Relayed = Relayed(msg: Message, failing: set<ConnId>, insertErr: Option<string>,
                             now: Time, dlqMarshalErr: Option<string>, dlqWriteErr: Option<string>)

  /** The clients left after the first n rounds: each round evicts its failing clients. */
  function Survivors(c0: set<ConnId>, ds: seq<Relayed>, n: nat): (s: set<ConnId>)
    requires n <= |ds|
    ensures s <= c0
  {
    if n == 0 then c0 else Survivors(c0, ds, n - 1) - ds[n - 1].failing
  }

  /** A client survives exactly when it was connected and no earlier round failed on it. */
  lemma {:induction false} SurvivorsIff(c0: set<ConnId>, ds: seq<Relayed>, n: nat, c: ConnId)
    requires n <= |ds|
    ensures c in Survivors(c0, ds, n) <==> c in c0 && forall i :: 0 <= i < n ==> c !in ds[i].failing
  {
    if n > 0 {
      SurvivorsIff(c0, ds, n - 1, c);
    }
  }

  /** Whether the insert of d reports an error: before Init, or from the driver. */
  predicate PersistFailed(d: Relayed, collSet: bool) { !collSet || d.insertErr.Some? }

  /** The dead-letter records the first n rounds leave on the bus. */
  function RelayDeadLetters(ds: seq<Relayed>, n: nat, collSet: bool, dlqTopic: string): seq<Record>
    requires n <= |ds|
  {
    if n == 0 then []
    else
      var d := ds[n - 1];
      RelayDeadLetters(ds, n - 1, collSet, dlqTopic)
      + (if PersistFailed(d, collSet) && d.dlqMarshalErr.None? && d.dlqWriteErr.None?
         then [DeadLetterRecord(dlqTopic, d.msg, PersistFailureReason, d.now)] else [])
  }

  /** The messages of the first n rounds whose insert the driver accepted, in order. */
  function RelayStored(ds: seq<Relayed>, n: nat): seq<Message>
    requires n <= |ds|
  {
    if n == 0 then [] else RelayStored(ds, n - 1) + (if ds[n - 1].insertErr.None? then [ds[n - 1].msg] else [])
  }

  /** Every dead letter is for a relayed message whose insert failed, on the dead-letter
      topic, with the reason "mongo_persist_failure"; when every insert succeeds there are
      none. */
  lemma {:induction false} RelayDeadLettersShape(ds: seq<Relayed>, n: nat, collSet: bool, dlqTopic: string)
    requires n <= |ds|
    ensures |RelayDeadLetters(ds, n, collSet, dlqTopic)| <= n
    ensures forall r :: r in RelayDeadLetters(ds, n, collSet, dlqTopic) ==>
      && r.topic == dlqTopic && r.value.DeadLetter? && r.value.reason == PersistFailureReason
      && r.key == r.value.msg.messageId
      && exists i :: 0 <= i < n && ds[i].msg == r.value.msg && PersistFailed(ds[i], collSet)
    ensures collSet && (forall i :: 0 <= i < n ==> ds[i].insertErr.None?) ==> RelayDeadLetters(ds, n, collSet, dlqTopic) == []
  {
    if n > 0 {
      RelayDeadLettersShape(ds, n - 1, collSet, dlqTopic);
    }
  }

  /** The calls one relay round makes, in order: the broadcast, the insert, and the
      dead-letter write after a failed insert. */
  function RoundActions(d: Relayed, collSet: bool): seq<Event> {
    [Broadcasted(d.msg), InsertCalled(d.msg)] + (if PersistFailed(d, collSet) then [DeadLetterCalled(d.msg)] else [])
  }

  function RelayActions(ds: seq<Relayed>, n: nat, collSet: bool): seq<Event>
    requires n <= |ds|
  {
    if n == 0 then [] else RelayActions(ds, n - 1, collSet) + RoundActions(ds[n - 1], collSet)
  }

  /** Persist after broadcast: every insert comes right after the broadcast of the same
      message, and every dead-letter write right after the insert of that message. */
  predicate InOrder(acts: seq<Event>) {
    forall j :: 0 <= j < |acts| ==> FollowsItsCause(acts, j)
  }

  predicate FollowsItsCause(acts: seq<Event>, j: nat)
    requires j < |acts|
  {
    && (acts[j].InsertCalled? ==> j > 0 && acts[j - 1] == Broadcasted(acts[j].msg))
    && (acts[j].DeadLetterCalled? ==> j > 0 && acts[j - 1] == InsertCalled(acts[j].msg))
  }

  /** Appending a block that starts with a broadcast keeps the order. */
  lemma InOrderAppend(prev: seq<Event>, r: seq<Event>)
    requires InOrder(prev) && InOrder(r) && |r| > 0 && r[0].Broadcasted?
    ensures InOrder(prev + r)
  {
    var acts := prev + r;
    forall j | 0 <= j < |acts|
      ensures FollowsItsCause(acts, j)
    {
      if j < |prev| {
        assert FollowsItsCause(prev, j);
        assert acts[j] == prev[j];
        if j > 0 {
          assert acts[j - 1] == prev[j - 1];
        }
      } else {
        var k := j - |prev|;
        assert FollowsItsCause(r, k);
        assert acts[j] == r[k];
        if k > 0 {
          assert acts[j - 1] == r[k - 1];
        }
      }
    }
  }

  lemma {:induction false} RelayActionsOrder(ds: seq<Relayed>, n: nat, collSet: bool)
    requires n <= |ds|
    ensures InOrder(RelayActions(ds, n, collSet))
    ensures |RelayActions(ds, n, collSet)| >= 2 * n
  {
    if n > 0 {
      RelayActionsOrder(ds, n - 1, collSet);
      var r := RoundActions(ds[n - 1], collSet);
      assert InOrder(r);
      InOrderAppend(RelayActions(ds, n - 1, collSet), r);
    }
  }

  /** Each round's writes are one fan-out to the clients that survived the earlier rounds. */
  ghost predicate EvictingRounds(blocks: seq<seq<WriteAttempt>>, c0: set<ConnId>, ds: seq<Relayed>)
    requires |blocks| <= |ds|
  {
    forall k :: 0 <= k < |blocks| ==> EvictingRound(blocks, c0, ds, k)
  }

  ghost predicate EvictingRound(blocks: seq<seq<WriteAttempt>>, c0: set<ConnId>, ds: seq<Relayed>, k: nat)
    requires k < |blocks| <= |ds|
  {
    Fanout(blocks[k], Survivors(c0, ds, k), ds[k].msg, ds[k].failing)
  }

  /** Round j writes to a client once when it was connected and has not failed in an earlier
      round, and otherwise never: an evicted client is not written again. */
  lemma EvictedNotWrittenAgain(blocks: seq<seq<WriteAttempt>>, c0: set<ConnId>, ds: seq<Relayed>, j: nat, c: ConnId)
    requires |blocks| <= |ds| && EvictingRounds(blocks, c0, ds) && j < |blocks|
    ensures WritesTo(blocks[j], c) == if c in c0 && forall i :: 0 <= i < j ==> c !in ds[i].failing then 1 else 0
  {
    assert EvictingRound(blocks, c0, ds, j);
    FanoutWritesEachOnce(blocks[j], Survivors(c0, ds, j), ds[j].msg, ds[j].failing, c);
    SurvivorsIff(c0, ds, j, c);
  }

  /** Where a relay loop started (clients, write and close logs, documents, bus records),
      whether the store is usable, the dead-letter topic, and the write blocks so far. */
  datatype RelayProgress = RelayProgress(c0: set<ConnId>, sent0: seq<WriteAttempt>, closed0: seq<ConnId>,
                                         docs0: Docs, pub0: seq<Record>, events0: seq<Event>, collSet: bool,
                                         dlqTopic: string, blocks: seq<seq<WriteAttempt>>)

  /** What relaying the first i messages has done to the connections since the loop
      started. */
  ghost predicate ConnsAt(p: RelayProgress, ds: seq<Relayed>, i: nat, clients: set<ConnId>,
                          sent: seq<WriteAttempt>, closed: seq<ConnId>)
  {
    && i <= |ds| && |p.blocks| == i
    && clients == Survivors(p.c0, ds, i)
    && sent == p.sent0 + Flatten(p.blocks)
    && closed == p.closed0 + FailedConns(Flatten(p.blocks))
    && EvictingRounds(p.blocks, p.c0, ds)
  }

  /** What relaying the first i messages has done to the store, the bus and the call log
      since the loop started. */
  ghost predicate EffectsAt(p: RelayProgress, ds: seq<Relayed>, i: nat, docs: Docs,
                            published: seq<Record>, events: seq<Event>)
    requires i <= |ds|
  {
    && docs == (if p.collSet then UpsertAll(p.docs0, RelayStored(ds, i)) else p.docs0)
    && published == p.pub0 + RelayDeadLetters(ds, i, p.collSet, p.dlqTopic)
    && events == p.events0 + RelayActions(ds, i, p.collSet)
  }

  /** Appending the fan-out of the next round to the clients that survived so far. */
  lemma EvictingRoundsExtend(blocks: seq<seq<WriteAttempt>>, c0: set<ConnId>, ds: seq<Relayed>, x: seq<WriteAttempt>)
    requires |blocks| < |ds| && EvictingRounds(blocks, c0, ds)
    requires Fanout(x, Survivors(c0, ds, |blocks|), ds[|blocks|].msg, ds[|blocks|].failing)
    ensures EvictingRounds(blocks + [x], c0, ds)
    ensures Flatten(blocks + [x]) == Flatten(blocks) + x
  {
    var blocks' := blocks + [x];
    forall k | 0 <= k < |blocks'|
      ensures EvictingRound(blocks', c0, ds, k)
    {
      if k < |blocks| {
        assert EvictingRound(blocks, c0, ds, k);
        assert blocks'[k] == blocks[k];
      }
    }
    assert blocks'[..|blocks|] == blocks;
  }

  /** The broadcast of message i moves the connections on by that round. */
  lemma ConnsStep(p: RelayProgress, ds: seq<Relayed>, i: nat, clients: set<ConnId>, sent: seq<WriteAttempt>,
                  closed: seq<ConnId>, x: seq<WriteAttempt>)
    returns (p': RelayProgress)
    requires i < |ds| && ConnsAt(p, ds, i, clients, sent, closed)
    requires Fanout(x, clients, ds[i].msg, ds[i].failing)
    ensures p' == p.(blocks := p'.blocks)
    ensures ConnsAt(p', ds, i + 1, clients - ds[i].failing, sent + x, closed + FailedConns(x))
  {
    p' := p.(blocks := p.blocks + [x]);
    EvictingRoundsExtend(p.blocks, p.c0, ds, x);
    FailedConnsAppend(Flatten(p.blocks), x);
  }

  /** The insert of message i, and the dead letter after a failed one, move the store and
      the bus on by that round. */
  lemma EffectsStep(p: RelayProgress, ds: seq<Relayed>, i: nat, docs: Docs, published: seq<Record>,
                    events: seq<Event>, docs': Docs, published': seq<Record>)
    requires i < |ds| && EffectsAt(p, ds, i, docs, published, events)
    requires docs' == if p.collSet then UpsertAll(docs, if ds[i].insertErr.None? then [ds[i].msg] else []) else docs
    requires published' == published +
      (if PersistFailed(ds[i], p.collSet) && ds[i].dlqMarshalErr.None? && ds[i].dlqWriteErr.None?
       then [DeadLetterRecord(p.dlqTopic, ds[i].msg, PersistFailureReason, ds[i].now)] else [])
    ensures EffectsAt(p, ds, i + 1, docs', published', events + RoundActions(ds[i], p.collSet))
  {
    if p.collSet {
      UpsertAllAppend(p.docs0, RelayStored(ds, i), if ds[i].insertErr.None? then [ds[i].msg] else []);
    }
  }

  /** The evicting broadcast part-way: the clients in done have been written, each once, and
      those whose write failed are closed and no longer in the client map. */
  ghost predicate Evicting(c0: set<ConnId>, msg: Message, failing: set<ConnId>, done: set<ConnId>, pending: set<ConnId>,
                           clients: set<ConnId>, sent0: seq<WriteAttempt>, sent: seq<WriteAttempt>,
                           closed0: seq<ConnId>, closed: seq<ConnId>, writes: seq<WriteAttempt>)
  {
    && done !! pending && done + pending == c0 && clients == c0 - done * failing
    && sent == sent0 + writes && Fanout(writes, done, msg, failing)
    && closed == closed0 + FailedConns(writes)
  }

  /** One write of the evicting broadcast: c moves from pending to done, and a failed write
      closes c and takes it out of the client map. */
  lemma EvictStep(c0: set<ConnId>, msg: Message, failing: set<ConnId>, done: set<ConnId>, pending: set<ConnId>,
                  clients: set<ConnId>, sent0: seq<WriteAttempt>, sent: seq<WriteAttempt>,
                  closed0: seq<ConnId>, closed: seq<ConnId>, writes: seq<WriteAttempt>, c: ConnId, a: WriteAttempt)
    requires Evicting(c0, msg, failing, done, pending, clients, sent0, sent, closed0, closed, writes)
    requires c in pending && a.conn == c && a.msg == msg && a.ok == (c !in failing)
    ensures Evicting(c0, msg, failing, done + {c}, pending - {c}, if a.ok then clients else clients - {c},
                     sent0, sent + [a], closed0, if a.ok then closed else closed + [c], writes + [a])
  {
    FanoutExtend(writes, done, msg, failing, a);
    assert (writes + [a])[..|writes|] == writes;
  }

  /** The package state of the backend: the client map with the writes and closes made on
      its connections, maxMsgLen, the store, the bus and the schema validator. */
  class Backend {
    var clients: set<ConnId>
    var sent: seq<WriteAttempt>
    var closed: seq<ConnId>
    const maxMsgLen: int
    const store: MongoStore
    const bus: Bus
    const validate: Message -> Option<string>
    /** The calls into the client map's broadcast, the store and the dead-letter writer,
        shared with the store and the bus. */
    ghost const log: EventLog

    ghost predicate Valid()
      reads store
    {
      KeyedById(store.docs) && store.log == log && bus.log == log
    }

    /** Start-up: an empty client map, and maxMsgLen from the environment. */
    constructor (env: Env, store: MongoStore, bus: Bus, validate: Message -> Option<string>)
      requires KeyedById(store.docs) && store.log == bus.log
      ensures clients == {} && sent == [] && closed == []
      ensures maxMsgLen == MaxMsgLenFrom(env)
      ensures this.store == store && this.bus == bus && this.validate == validate && Valid()
    {
      this.store, this.bus, this.validate := store, bus, validate;
      log := store.log;
      clients, sent, closed := {}, [], [];
      var limit := DefaultMaxMsgLen;
      var v := Getenv(env, MaxLenVar);
      if v != "" {
        var n := Atoi(v);
        if n.Some? && n.value > 0 {
          limit := n.value;
        }
      }
      maxMsgLen := limit;
    }

    /** One frame of the handleConnections loop: fill in an empty id and a zero timestamp,
        skip the frame when it is too long or invalid, otherwise publish it. A failed publish
        is only logged. */
    method HandleFrame(f: WsFrame)
      modifies bus
      ensures bus.published == old(bus.published) + FrameRecords(f, maxMsgLen, validate, bus.topic)
      ensures SharedTopicAfter(old(bus.sharedTopic), bus.sharedTopic, bus.topic)
    {
      var msg := f.msg;
      if msg.messageId == "" {
        msg := msg.(messageId := f.freshId);
      }
      if IsZero(msg.timestamp) {
        msg := msg.(timestamp := f.now);
      }
      if |msg.content| > maxMsgLen {
        return;
      }
      if validate(msg).Some? {
        return;
      }
      var err;
      ghost var attempts, sleeps;
      err, attempts, sleeps := bus.Writer(msg, f.publish.marshalErr, f.publish.outcome);
    }

    /** The read loop of handleConnections: every frame is handled in order until the read
        error that ends it. */
    method ReadLoop(frames: seq<WsFrame>)
      modifies bus
      ensures bus.published == old(bus.published) + WsRecords(frames, |frames|, maxMsgLen, validate, bus.topic)
      ensures SharedTopicAfter(old(bus.sharedTopic), bus.sharedTopic, bus.topic)
    {
      var i := 0;
      while i < |frames|
        invariant 0 <= i <= |frames|
        invariant bus.published == old(bus.published) + WsRecords(frames, i, maxMsgLen, validate, bus.topic)
        invariant SharedTopicAfter(old(bus.sharedTopic), bus.sharedTopic, bus.topic)
      {
        HandleFrame(frames[i]);
        i := i + 1;
      }
    }

    /** handleConnections on a new connection conn: 401 "token not provided" or "Invalid
        token" before the upgrade, nothing registered; nothing more when the upgrade fails;
        otherwise conn joins the client map, its frames are published in order, and at the
        read error that ends the loop it is deleted from the map and closed. */
    method HandleConnections(token: string, v: Verifier, upgradeOk: bool, conn: ConnId,
                             frames: seq<WsFrame>) returns (r: ApiServer.WsResult)
      modifies this, bus
      ensures token == "" ==> r == ApiServer.Rejected(Reply(StatusUnauthorized, Text("token not provided")))
      ensures token != "" && !Admits(v, token) ==>
        r == ApiServer.Rejected(Reply(StatusUnauthorized, Text("Invalid token")))
      ensures r.Served? <==> token != "" && Admits(v, token) && upgradeOk
      ensures !r.Served? ==> unchanged(this, bus)
      ensures r.Served? ==>
        && clients == old(clients) - {conn} && closed == old(closed) + [conn]
        && sent == old(sent)
        && bus.published == old(bus.published) + WsRecords(frames, |frames|, maxMsgLen, validate, bus.topic)
      ensures SharedTopicAfter(old(bus.sharedTopic), bus.sharedTopic, bus.topic)
    {
      if token == "" {
        return ApiServer.Rejected(Reply(StatusUnauthorized, Text("token not provided")));
      }
      if Check(v, token).Refused? {
        return ApiServer.Rejected(Reply(StatusUnauthorized, Text("Invalid token")));
      }
      if !upgradeOk {
        return ApiServer.UpgradeFailed;
      }
      clients := clients + {conn};
      ReadLoop(frames);
      clients := clients - {conn};
      closed := closed + [conn];
      r := ApiServer.Served;
    }

    /** The POST branch of handleMessages. Nothing is broadcast or stored here; a failed
        publish is a 500. */
    method HandlePost(body: Result<Message>, freshId: string, now: Time, publish: Publish) returns (reply: Reply)
      modifies bus
      ensures reply == PostReply(body, maxMsgLen, validate, freshId, now, publish)
      ensures bus.published == old(bus.published) + PostRecords(body, maxMsgLen, validate, freshId, now, publish, bus.topic)
      ensures SharedTopicAfter(old(bus.sharedTopic), bus.sharedTopic, bus.topic)
    {
      if body.Err? {
        return Reply(StatusBadRequest, Text(body.error));
      }
      var msg := body.value;
      if |msg.content| > maxMsgLen {
        return Reply(StatusBadRequest, Text("message too long"));
      }
      var schemaErr := validate(msg);
      if schemaErr.Some? {
        return Reply(StatusBadRequest, Text("Invalid message schema: " + schemaErr.value));
      }
      if msg.messageId == "" {
        msg := msg.(messageId := freshId);
      }
      msg := msg.(timestamp := now);
      var err;
      ghost var attempts, sleeps;
      err, attempts, sleeps := bus.Writer(msg, publish.marshalErr, publish.outcome);
      if err.Some? {
        return Reply(StatusInternalServerError, Text("Failed to enqueue message"));
      }
      return Reply(StatusAccepted, Ack(msg.messageId, "enqueued"));
    }

    /** The GET branch of handleMessages: the stored messages the cursor hands out, or 500. */
    method HandleGet(findErr: Option<string>, undecodable: set<string>, decodeErr: string, failsAfter: Option<nat>)
      returns (reply: Reply)
      requires Valid()
      ensures ApiServer.GetAnswer(reply, "Failed to fetch messages", store.docs, store.collSet, findErr, undecodable, failsAfter)
    {
      var list := store.GetAllMessages(findErr, undecodable, decodeErr, failsAfter);
      if list.Err? {
        return Reply(StatusInternalServerError, Text("Failed to fetch messages"));
      }
      return Reply(StatusOK, Messages(list.value));
    }

    /** /messages behind AuthMiddleware: the middleware's 401 and no effect, or POST, GET, or
        405 for any other method. */
    method ServeMessages(auth: string, v: Verifier, req: Request) returns (reply: Reply)
      requires Valid()
      modifies bus
      ensures Middleware(auth, v).Some? ==> reply == Middleware(auth, v).value && unchanged(bus)
      ensures Middleware(auth, v).None? && req.PostMsg? ==>
        && reply == PostReply(req.body, maxMsgLen, validate, req.freshId, req.now, req.publish)
        && bus.published == old(bus.published) + PostRecords(req.body, maxMsgLen, validate, req.freshId, req.now, req.publish, bus.topic)
      ensures Middleware(auth, v).None? && req.GetAll? ==>
        && ApiServer.GetAnswer(reply, "Failed to fetch messages", store.docs, store.collSet,
                               req.findErr, req.undecodable, req.failsAfter)
        && unchanged(bus)
      ensures Middleware(auth, v).None? && req.OtherMethod? ==>
        reply == Reply(StatusMethodNotAllowed, NoBody) && unchanged(bus)
      ensures SharedTopicAfter(old(bus.sharedTopic), bus.sharedTopic, bus.topic)
    {
      var denied := Middleware(auth, v);
      if denied.Some? {
        return denied.value;
      }
      match req {
        case PostMsg(body, freshId, now, publish) =>
          reply := HandlePost(body, freshId, now, publish);
        case GetAll(findErr, undecodable, decodeErr, failsAfter) =>
          reply := HandleGet(findErr, undecodable, decodeErr, failsAfter);
        case OtherMethod =>
          reply := Reply(StatusMethodNotAllowed, NoBody);
      }
    }

    /** The inner loop of handleMessagesBroadcasting: one write of msg to every client; a
        client whose write fails is closed and deleted, and the others are still written. */
    method BroadcastEvicting(msg: Message, failing: set<ConnId>) returns (ghost writes: seq<WriteAttempt>)
      modifies this, log
      ensures log.events == old(log.events) + [Broadcasted(msg)]
      ensures clients == old(clients) - failing
      ensures sent == old(sent) + writes && Fanout(writes, old(clients), msg, failing)
      ensures closed == old(closed) + FailedConns(writes)
    {
      var pending := clients;
      ghost var done: set<ConnId> := {};
      writes := [];
      while pending != {}
        invariant Evicting(old(clients), msg, failing, done, pending, clients, old(sent), sent, old(closed), closed, writes)
        invariant unchanged(log)
        decreases |pending|
      {
        var c :| c in pending;
        var attempt := WriteAttempt(c, msg, c !in failing);
        EvictStep(old(clients), msg, failing, done, pending, clients, old(sent), sent, old(closed), closed, writes, c, attempt);
        sent, writes := sent + [attempt], writes + [attempt];
        if !attempt.ok {
          closed := closed + [c];
          clients := clients - {c};
        }
        done, pending := done + {c}, pending - {c};
      }
      log.events := log.events + [Broadcasted(msg)];
    }

    /** One round of handleMessagesBroadcasting: the evicting broadcast, then the insert, and
        a dead-letter write with reason "mongo_persist_failure" when the insert reports an
        error; the dead-letter result is ignored. */
    method RelayOne(d: Relayed) returns (ghost writes: seq<WriteAttempt>)
      requires Valid()
      modifies this, store, bus, log
      ensures Valid()
      ensures log.events == old(log.events) + RoundActions(d, store.collSet)
      ensures clients == old(clients) - d.failing
      ensures sent == old(sent) + writes && Fanout(writes, old(clients), d.msg, d.failing)
      ensures closed == old(closed) + FailedConns(writes)
      ensures store.collSet == old(store.collSet)
      ensures store.docs == if store.collSet then UpsertAll(old(store.docs), if d.insertErr.None? then [d.msg] else []) else old(store.docs)
      ensures bus.published == old(bus.published) +
        (if PersistFailed(d, store.collSet) && d.dlqMarshalErr.None? && d.dlqWriteErr.None?
         then [DeadLetterRecord(bus.dlqTopic, d.msg, PersistFailureReason, d.now)] else [])
      ensures SharedTopicAfter(old(bus.sharedTopic), bus.sharedTopic, bus.dlqTopic)
    {
      writes := BroadcastEvicting(d.msg, d.failing);
      var err := store.InsertMessage(d.msg, d.insertErr);
      assert d.insertErr.None? ==> [d.msg][1..] == [];
      if err.Some? {
        var _ := bus.DLQWriter(d.msg, PersistFailureReason, d.now, d.dlqMarshalErr, d.dlqWriteErr);
      }
    }

    /** handleMessagesBroadcasting over the messages taken off the channel, in order: each is
        written to the clients still connected, failing clients are evicted, and it is then
        inserted, with a dead letter for a failed insert. */
    method HandleMessagesBroadcasting(ds: seq<Relayed>) returns (ghost blocks: seq<seq<WriteAttempt>>)
      requires Valid()
      modifies this, store, bus, log
      ensures Valid()
      ensures clients == Survivors(old(clients), ds, |ds|)
      ensures |blocks| == |ds| && EvictingRounds(blocks, old(clients), ds)
      ensures sent == old(sent) + Flatten(blocks)
      ensures closed == old(closed) + FailedConns(Flatten(blocks))
      ensures store.collSet == old(store.collSet)
      ensures store.docs == if store.collSet then UpsertAll(old(store.docs), RelayStored(ds, |ds|)) else old(store.docs)
      ensures bus.published == old(bus.published) + RelayDeadLetters(ds, |ds|, store.collSet, bus.dlqTopic)
      ensures log.events == old(log.events) + RelayActions(ds, |ds|, store.collSet)
      ensures InOrder(log.events[|old(log.events)|..])
      ensures SharedTopicAfter(old(bus.sharedTopic), bus.sharedTopic, bus.dlqTopic)
    {
      ghost var p := RelayProgress(clients, sent, closed, store.docs, bus.published, log.events, store.collSet,
                                   bus.dlqTopic, []);
      var i := 0;
      while i < |ds|
        invariant 0 <= i <= |ds|
        invariant Valid() && store.collSet == old(store.collSet)
        invariant p == RelayProgress(old(clients), old(sent), old(closed), old(store.docs), old(bus.published),
                                     old(log.events), store.collSet, bus.dlqTopic, p.blocks)
        invariant ConnsAt(p, ds, i, clients, sent, closed)
        invariant EffectsAt(p, ds, i, store.docs, bus.published, log.events)
        invariant SharedTopicAfter(old(bus.sharedTopic), bus.sharedTopic, bus.dlqTopic)
      {
        ghost var c, s, cl, docs, pub, events := clients, sent, closed, store.docs, bus.published, log.events;
        ghost var x := RelayOne(ds[i]);
        EffectsStep(p, ds, i, docs, pub, events, store.docs, bus.published);
        p := ConnsStep(p, ds, i, c, s, cl, x);
        i := i + 1;
      }
      blocks := p.blocks;
      RelayActionsOrder(ds, |ds|, store.collSet);
      assert log.events[|old(log.events)|..] == RelayActions(ds, |ds|, store.collSet);
    }
  }
}
