/** The HTTP and websocket front end of backend/src/api/server.go: bearer checks, the
    websocket read loop, the /messages handler and the loop that relays bus messages to the
    hub and the store. */
module ApiServer {
  import opened Optional
  import opened Models
  import opened Strconv
  import opened Websocket
  import opened ApiHub
  import opened Store
  import opened Http
  import opened Trace

  /** withAuth: the bearer token of an Authorization header, or None when the header is
      empty, shorter than 8 characters, or does not start with "Bearer ". */
  function BearerToken(auth: string): (r: Option<string>)
    ensures r.Some? <==> |auth| >= 8 && auth[..7] == "Bearer "
    ensures r.Some? ==> "Bearer " + r.value == auth && r.value != ""
  {
    if auth == "" || |auth| < 8 || auth[..7] != "Bearer " then None else Some(auth[7..])
  }

  /** The token withAuth hands to the verifier is exactly what follows the prefix. */
  lemma BearerTokenOfPrefixed(token: string)
    requires token != ""
    ensures BearerToken("Bearer " + token) == Some(token)
  {
    assert ("Bearer " + token)[..7] == "Bearer ";
    assert ("Bearer " + token)[7..] == token;
  }

  /** Whether withAuth lets a request through: a bearer token the verifier accepts. */
  predicate Authorized(auth: string, verify: string -> bool) {
    BearerToken(auth).Some? && verify(BearerToken(auth).value)
  }

  /** ParseMaxLen: n when v parses as an integer n > 0, and the fallback otherwise. */
  function ParseMaxLen(v: string, fallback: int): (r: int)
    ensures Atoi(v).Some? && Atoi(v).value > 0 ==> r == Atoi(v).value
    ensures !(Atoi(v).Some? && Atoi(v).value > 0) ==> r == fallback
  {
    match Atoi(v)
    case Some(n) => if n > 0 then n else fallback
    case None => fallback
  }

  /** Every positive 64-bit limit survives printing and parsing, and every other integer
      yields the fallback. */
  lemma ParseMaxLenItoa(n: int, fallback: int)
    requires MinInt64 <= n <= MaxInt64
    ensures ParseMaxLen(Itoa(n), fallback) == if n > 0 then n else fallback
  {
    AtoiItoa(n);
  }

  /** The optional schema validator: a nil validator accepts every message. */
  predicate Accepts(validator: Option<Message -> bool>, m: Message) {
    validator.None? || validator.value(m)
  }

  /** The websocket fill-in: a fresh id when the id is empty, the current time when the
      timestamp is zero; set fields are kept. */
  function NormalizeWs(msg: Message, freshId: string, now: Time): (m: Message)
    ensures m.userId == msg.userId && m.content == msg.content
    ensures msg.messageId != "" ==> m.messageId == msg.messageId
    ensures msg.messageId == "" ==> m.messageId == freshId
    ensures !IsZero(msg.timestamp) ==> m.timestamp == msg.timestamp
    ensures IsZero(msg.timestamp) ==> m.timestamp == now
  {
    msg.(messageId := if msg.messageId == "" then freshId else msg.messageId,
         timestamp := if IsZero(msg.timestamp) then now else msg.timestamp)
  }

  /** Normalising an already normalised message changes nothing when the fill-in values are
      themselves set. */
  lemma NormalizeWsIdempotent(msg: Message, freshId: string, now: Time, freshId': string, now': Time)
    requires freshId != "" && !IsZero(now)
    ensures NormalizeWs(NormalizeWs(msg, freshId, now), freshId', now') == NormalizeWs(msg, freshId, now)
  {
  }

  /** Whether a message passes the length check and the validator. */
  predicate Admitted(m: Message, maxLen: int, validator: Option<Message -> bool>) {
    |m.content| <= maxLen && Accepts(validator, m)
  }

  /** One websocket frame read by handleWS, with the values the environment supplies while it
      is handled: a fresh uuid, the clock, the publish result, the connections whose write
      fails during a fallback broadcast, and the store driver's result for the insert. */
  datatype Frame = Frame(msg: Message, freshId: string, now: Time, publishErr: Option<string>,
                         failing: set<ConnId>, insertErr: Option<string>)

  function FrameMessage(f: Frame): Message { NormalizeWs(f.msg, f.freshId, f.now) }

  /** The publishes, fallback broadcasts and fallback inserts one frame causes. */
  function FramePublishes(f: Frame, maxLen: int, validator: Option<Message -> bool>): seq<Message> {
    if Admitted(FrameMessage(f), maxLen, validator) then [FrameMessage(f)] else []
  }
  function FrameFallbacks(f: Frame, maxLen: int, validator: Option<Message -> bool>): seq<Round> {
    if Admitted(FrameMessage(f), maxLen, validator) && f.publishErr.Some?
    then [Round(FrameMessage(f), f.failing)] else []
  }
  function FrameInserts(f: Frame, maxLen: int, validator: Option<Message -> bool>): seq<Message> {
    if Admitted(FrameMessage(f), maxLen, validator) && f.publishErr.Some? && f.insertErr.None?
    then [FrameMessage(f)] else []
  }

  /** Over a sequence of frames: every admitted message is published, in order. */
  function WsPublishes(fs: seq<Frame>, n: nat, maxLen: int, validator: Option<Message -> bool>): (r: seq<Message>)
    requires n <= |fs|
  {
    if n == 0 then [] else WsPublishes(fs, n - 1, maxLen, validator) + FramePublishes(fs[n - 1], maxLen, validator)
  }

  /** Over a sequence of frames: the fallback broadcast rounds, one per admitted message
      whose publish failed, in order. */
  function WsFallbacks(fs: seq<Frame>, n: nat, maxLen: int, validator: Option<Message -> bool>): (r: seq<Round>)
    requires n <= |fs|
  {
    if n == 0 then [] else WsFallbacks(fs, n - 1, maxLen, validator) + FrameFallbacks(fs[n - 1], maxLen, validator)
  }

  /** Over a sequence of frames: the fallback inserts the driver accepted, in order. */
  function WsInserts(fs: seq<Frame>, n: nat, maxLen: int, validator: Option<Message -> bool>): (r: seq<Message>)
    requires n <= |fs|
  {
    if n == 0 then [] else WsInserts(fs, n - 1, maxLen, validator) + FrameInserts(fs[n - 1], maxLen, validator)
  }

  /** The calls the fallback rounds make, in order: each round's broadcast, then its insert
      when there is a repository. */
  function FallbackEvents(rounds: seq<Round>, hasRepo: bool): (r: seq<Event>)
    ensures |r| == if hasRepo then 2 * |rounds| else |rounds|
  {
    if rounds == [] then []
    else
      var last := rounds[|rounds| - 1];
      FallbackEvents(rounds[..|rounds| - 1], hasRepo)
      + [Broadcasted(last.msg)] + (if hasRepo then [InsertCalled(last.msg)] else [])
  }

  lemma {:induction false} FallbackEventsAppend(a: seq<Round>, b: seq<Round>, hasRepo: bool)
    ensures FallbackEvents(a + b, hasRepo) == FallbackEvents(a, hasRepo) + FallbackEvents(b, hasRepo)
    decreases |b|
  {
    if b == [] {
      assert a + b == a;
    } else {
      var n := |b| - 1;
      assert (a + b)[..|a + b| - 1] == a + b[..n];
      FallbackEventsAppend(a, b[..n], hasRepo);
    }
  }

  /** Only messages that passed the length check and the validator are published. */
  lemma {:induction false} WsPublishesAdmitted(fs: seq<Frame>, n: nat, maxLen: int, validator: Option<Message -> bool>)
    requires n <= |fs|
    ensures |WsPublishes(fs, n, maxLen, validator)| <= n
    ensures forall m :: m in WsPublishes(fs, n, maxLen, validator) ==> Admitted(m, maxLen, validator)
  {
    if n > 0 {
      WsPublishesAdmitted(fs, n - 1, maxLen, validator);
    }
  }

  /** Every fallback broadcast is of a message that was handed to the producer first. */
  lemma {:induction false} WsFallbacksPublished(fs: seq<Frame>, n: nat, maxLen: int, validator: Option<Message -> bool>)
    requires n <= |fs|
    ensures |WsFallbacks(fs, n, maxLen, validator)| <= |WsPublishes(fs, n, maxLen, validator)|
    ensures forall r :: r in WsFallbacks(fs, n, maxLen, validator) ==> r.msg in WsPublishes(fs, n, maxLen, validator)
  {
    if n > 0 {
      WsFallbacksPublished(fs, n - 1, maxLen, validator);
    }
  }

  /** The handler inserts a message only when it also broadcast it as a fallback. */
  lemma {:induction false} WsInsertsFellBack(fs: seq<Frame>, n: nat, maxLen: int, validator: Option<Message -> bool>)
    requires n <= |fs|
    ensures |WsInserts(fs, n, maxLen, validator)| <= |WsFallbacks(fs, n, maxLen, validator)|
    ensures forall m :: m in WsInserts(fs, n, maxLen, validator) ==> exists r :: r in WsFallbacks(fs, n, maxLen, validator) && r.msg == m
  {
    if n > 0 {
      WsInsertsFellBack(fs, n - 1, maxLen, validator);
      var f := fs[n - 1];
      if FrameInserts(f, maxLen, validator) != [] {
        assert Round(FrameMessage(f), f.failing) in WsFallbacks(fs, n, maxLen, validator);
      }
    }
  }

  /** A frame the length check or the validator rejects is dropped: it is not published,
      broadcast or stored. */
  lemma DroppedFrameHasNoEffect(f: Frame, maxLen: int, validator: Option<Message -> bool>)
    requires |FrameMessage(f).content| > maxLen || !Accepts(validator, FrameMessage(f))
    ensures FramePublishes(f, maxLen, validator) == []
    ensures FrameFallbacks(f, maxLen, validator) == [] && FrameInserts(f, maxLen, validator) == []
  {
  }

  /** A frame whose publish succeeds is neither broadcast by the handler nor stored by it;
      delivery is left to the relay loop. */
  lemma PublishedFrameHasNoFallback(f: Frame, maxLen: int, validator: Option<Message -> bool>)
    requires f.publishErr.None?
    ensures FrameFallbacks(f, maxLen, validator) == [] && FrameInserts(f, maxLen, validator) == []
  {
  }

  /** The message a POST publishes: a fresh id only when the id is empty, and the server's
      time always, whatever timestamp the client sent. */
  function PostMessage(msg: Message, freshId: string, now: Time): (m: Message)
    ensures m.userId == msg.userId && m.content == msg.content && m.timestamp == now
    ensures m.messageId == (if msg.messageId == "" then freshId else msg.messageId)
  {
    msg.(messageId := if msg.messageId == "" then freshId else msg.messageId, timestamp := now)
  }

  /** The reply to a POST, given the decoded body (None when decoding failed) and the values
      the environment supplies: the length check comes before any fill-in, the validator
      sees the filled-in message, and the acknowledgement carries its final id. */
  function PostReply(body: Option<Message>, maxLen: int, validator: Option<Message -> bool>,
                     freshId: string, now: Time, publishErr: Option<string>): (r: Reply)
    ensures body.None? ==> r == Reply(StatusBadRequest, Text("bad request"))
    ensures body.Some? && |body.value.content| > maxLen ==> r == Reply(StatusBadRequest, Text("message too long"))
    ensures body.Some? && |body.value.content| <= maxLen && !Accepts(validator, PostMessage(body.value, freshId, now)) ==>
      r == Reply(StatusBadRequest, Text("invalid"))
    ensures r.status == StatusAccepted <==>
      body.Some? && Admitted(PostMessage(body.value, freshId, now), maxLen, validator)
    ensures r.status == StatusAccepted ==>
      r.body == Ack(PostMessage(body.value, freshId, now).messageId,
                    if publishErr.Some? then "broadcasted-fallback" else "enqueued")
  {
    if body.None? then Reply(StatusBadRequest, Text("bad request"))
    else if |body.value.content| > maxLen then Reply(StatusBadRequest, Text("message too long"))
    else
      var m := PostMessage(body.value, freshId, now);
      if !Accepts(validator, m) then Reply(StatusBadRequest, Text("invalid"))
      else if publishErr.Some? then Reply(StatusAccepted, Ack(m.messageId, "broadcasted-fallback"))
      else Reply(StatusAccepted, Ack(m.messageId, "enqueued"))
  }

  /** How handleWS ends: a rejection written before the upgrade, a failed upgrade (the
      upgrader writes its own error response), or a served connection. */
  datatype WsResult = Rejected(reply: Reply) | UpgradeFailed | Served

  /** A request to /messages, with the values the environment supplies for it. */
  datatype Request =
    | Post(body: Option<Message>, freshId: string, now: Time, publishErr: Option<string>,
           failing: set<ConnId>, insertErr: Option<string>)
    | Get(findErr: Option<string>, undecodable: set<string>, decodeErr: string, failsAfter: Option<nat>)
    | OtherMethod

  /** The answer to a GET of /messages over the stored documents: 200 with the messages the
      cursor handed out, once each, and all of them when the cursor did not fail early; or
      500 with failText, which happens only without a collection, on a failed Find, or on a
      document that does not decode. A cursor that fails early still gives 200. */
  ghost predicate GetAnswer(reply: Reply, failText: string, docs: Docs, collSet: bool, findErr: Option<string>,
                            undecodable: set<string>, failsAfter: Option<nat>)
  {
    && (reply.status == StatusOK || reply == Reply(StatusInternalServerError, Text(failText)))
    && (reply.status == StatusOK ==> collSet && findErr.None?)
    && (collSet && findErr.None? && undecodable * docs.Keys == {} ==> reply.status == StatusOK)
    && (CursorYield(failsAfter, |docs|) == |docs| ==>
          (reply.status == StatusOK <==> collSet && findErr.None? && undecodable * docs.Keys == {}))
    && (reply.status == StatusOK ==>
          && reply.body.Messages?
          && Listing(docs, undecodable, CursorYield(failsAfter, |docs|), reply.body.list)
          && (CursorYield(failsAfter, |docs|) == |docs| ==> forall m :: m in reply.body.list <==> Stored(docs, m)))
  }

  /** One bus message delivered to the relay loop, with the connections whose write fails
      and the store driver's result for the insert. */
  datatype Delivery = Delivery(msg: Message, failing: set<ConnId>, insertErr: Option<string>)

  /** The broadcast rounds of the first n deliveries, in order. */
  function DeliveryRounds(ds: seq<Delivery>, n: nat): (r: seq<Round>)
    requires n <= |ds|
    ensures |r| == n
  {
    if n == 0 then [] else DeliveryRounds(ds, n - 1) + [Round(ds[n - 1].msg, ds[n - 1].failing)]
  }

  /** The inserts of the first n deliveries that the driver accepted, in order. */
  function DeliveryInserts(ds: seq<Delivery>, n: nat): (r: seq<Message>)
    requires n <= |ds|
  {
    if n == 0 then []
    else DeliveryInserts(ds, n - 1) + (if ds[n - 1].insertErr.None? then [ds[n - 1].msg] else [])
  }

  /** Round i of the relay is the i-th delivered message with its failing connections. */
  lemma {:induction false} DeliveryRoundsAt(ds: seq<Delivery>, n: nat)
    requires n <= |ds|
    ensures forall i :: 0 <= i < n ==> DeliveryRounds(ds, n)[i] == Round(ds[i].msg, ds[i].failing)
  {
    if n > 0 {
      DeliveryRoundsAt(ds, n - 1);
    }
  }

  /** The relay stores a message only if it was delivered and the driver accepted its insert. */
  lemma {:induction false} DeliveryInsertsDelivered(ds: seq<Delivery>, n: nat)
    requires n <= |ds|
    ensures forall m :: m in DeliveryInserts(ds, n) ==> exists i :: 0 <= i < n && ds[i].msg == m && ds[i].insertErr.None?
  {
    if n > 0 {
      DeliveryInsertsDelivered(ds, n - 1);
    }
  }

  /** The calls the relay loop makes, in order: for each message, the broadcast and then the
      insert. */
  function RelaySteps(ds: seq<Delivery>, n: nat): (r: seq<Event>)
    requires n <= |ds|
    ensures |r| == 2 * n
  {
    if n == 0 then [] else RelaySteps(ds, n - 1) + [Broadcasted(ds[n - 1].msg), InsertCalled(ds[n - 1].msg)]
  }

  /** Broadcast before persist: the relay's 2i-th step broadcasts the i-th delivered message
      and the next step inserts that same message. */
  lemma {:induction false} RelayStepsOrder(ds: seq<Delivery>, n: nat)
    requires n <= |ds|
    ensures forall i :: 0 <= i < n ==>
      RelaySteps(ds, n)[2 * i] == Broadcasted(ds[i].msg) && RelaySteps(ds, n)[2 * i + 1] == InsertCalled(ds[i].msg)
  {
    if n > 0 {
      RelayStepsOrder(ds, n - 1);
    }
  }

  /** Where a relay loop started (the hub's write log and the stored documents), whether the
      repository is usable, the members written, and the write blocks of the rounds so far. */
  datatype RelayProgress = RelayProgress(sent0: seq<WriteAttempt>, docs0: Docs, events0: seq<Event>, collSet: bool,
                                         targets: set<ConnId>, blocks: seq<seq<WriteAttempt>>)

  /** What relaying the first i deliveries has done since the loop started. */
  ghost predicate RelayProgressAt(p: RelayProgress, ds: seq<Delivery>, i: nat,
                                  sent: seq<WriteAttempt>, docs: Docs, events: seq<Event>)
  {
    && i <= |ds|
    && sent == p.sent0 + Flatten(p.blocks)
    && RoundBlocks(p.blocks, DeliveryRounds(ds, i), p.targets)
    && docs == (if p.collSet then UpsertAll(p.docs0, DeliveryInserts(ds, i)) else p.docs0)
    && events == p.events0 + RelaySteps(ds, i)
  }

  /** Relaying delivery i moves the progress on by that delivery. */
  lemma RelayProgressStep(p: RelayProgress, ds: seq<Delivery>, i: nat, sent: seq<WriteAttempt>, docs: Docs,
                          events: seq<Event>, x: seq<WriteAttempt>, sent': seq<WriteAttempt>, docs': Docs)
    returns (p': RelayProgress)
    requires i < |ds| && RelayProgressAt(p, ds, i, sent, docs, events)
    requires sent' == sent + x && Fanout(x, p.targets, ds[i].msg, ds[i].failing)
    requires docs' == if p.collSet then UpsertAll(docs, if ds[i].insertErr.None? then [ds[i].msg] else []) else docs
    ensures p' == p.(blocks := p'.blocks)
    ensures RelayProgressAt(p', ds, i + 1, sent', docs', events + [Broadcasted(ds[i].msg), InsertCalled(ds[i].msg)])
  {
    var blocks' := RoundBlocksStep(p.sent0, p.blocks, DeliveryRounds(ds, i), p.targets, sent, x, sent',
                                   [Round(ds[i].msg, ds[i].failing)]);
    if p.collSet {
      UpsertAllAppend(p.docs0, DeliveryInserts(ds, i), if ds[i].insertErr.None? then [ds[i].msg] else []);
    }
    p' := p.(blocks := blocks');
  }

  /** The docs after an insert of m through a repository: unchanged without a repository,
      before Init, or on a driver error; otherwise the upsert. */
  function AfterInsert(docs: Docs, collSet: bool, m: Message, insertErr: Option<string>): (r: Docs)
    ensures r == docs || r == Upsert(docs, m)
    ensures KeyedById(docs) ==> KeyedById(r)
  {
    if collSet && insertErr.None? then Upsert(docs, m) else docs
  }

  /** The stored documents of a possibly absent repository. */
  function DocsOf(repo: MongoStore?): (d: Docs)
    reads repo
    ensures repo != null ==> d == repo.docs
  {
    if repo != null then repo.docs else map[]
  }

  /** Where a websocket read loop started (the producer calls, the hub's write log and the
      stored documents), whether the repository is usable, the members other than the
      reading connection, and the write blocks of the fallback rounds so far. */
  datatype WsProgress = WsProgress(pub0: seq<Message>, sent0: seq<WriteAttempt>, docs0: Docs, collSet: bool,
                                   others: set<ConnId>, blocks: seq<seq<WriteAttempt>>)

  /** What handling the first i frames has done since the loop started: their publishes,
      one block of writes to the other members per fallback round, and their inserts. */
  ghost predicate WsProgressAt(p: WsProgress, frames: seq<Frame>, i: nat, maxLen: int, validator: Option<Message -> bool>,
                               pub: seq<Message>, sent: seq<WriteAttempt>, docs: Docs)
  {
    && i <= |frames|
    && pub == p.pub0 + WsPublishes(frames, i, maxLen, validator)
    && sent == p.sent0 + Flatten(p.blocks)
    && RoundBlocks(p.blocks, WsFallbacks(frames, i, maxLen, validator), p.others)
    && docs == (if p.collSet then UpsertAll(p.docs0, WsInserts(frames, i, maxLen, validator)) else p.docs0)
  }

  /** The calls of the first i + 1 frames' fallbacks are those of the first i, then frame i's. */
  lemma WsFallbackEventsStep(frames: seq<Frame>, i: nat, maxLen: int, validator: Option<Message -> bool>, hasRepo: bool)
    requires i < |frames|
    ensures FallbackEvents(WsFallbacks(frames, i + 1, maxLen, validator), hasRepo)
         == FallbackEvents(WsFallbacks(frames, i, maxLen, validator), hasRepo)
          + FallbackEvents(FrameFallbacks(frames[i], maxLen, validator), hasRepo)
  {
    FallbackEventsAppend(WsFallbacks(frames, i, maxLen, validator), FrameFallbacks(frames[i], maxLen, validator), hasRepo);
  }

  /** The call log after frame i: the log after the first i frames, then frame i's calls. */
  lemma WsEventsStep(frames: seq<Frame>, i: nat, maxLen: int, validator: Option<Message -> bool>, hasRepo: bool,
                     events0: seq<Event>, events: seq<Event>, events': seq<Event>)
    requires i < |frames|
    requires events == events0 + FallbackEvents(WsFallbacks(frames, i, maxLen, validator), hasRepo)
    requires events' == events + FallbackEvents(FrameFallbacks(frames[i], maxLen, validator), hasRepo)
    ensures events' == events0 + FallbackEvents(WsFallbacks(frames, i + 1, maxLen, validator), hasRepo)
  {
    var before := FallbackEvents(WsFallbacks(frames, i, maxLen, validator), hasRepo);
    var now := FallbackEvents(FrameFallbacks(frames[i], maxLen, validator), hasRepo);
    WsFallbackEventsStep(frames, i, maxLen, validator, hasRepo);
    assert (events0 + before) + now == events0 + (before + now);
  }

  /** Handling frame i moves the progress on by that frame's effects. */
  lemma WsProgressStep(p: WsProgress, frames: seq<Frame>, i: nat, maxLen: int, validator: Option<Message -> bool>,
                       pub: seq<Message>, sent: seq<WriteAttempt>, docs: Docs,
                       pub': seq<Message>, x: seq<WriteAttempt>, sent': seq<WriteAttempt>, docs': Docs)
    returns (p': WsProgress)
    requires i < |frames| && WsProgressAt(p, frames, i, maxLen, validator, pub, sent, docs)
    requires pub' == pub + FramePublishes(frames[i], maxLen, validator)
    requires sent' == sent + x
    requires FrameFallbacks(frames[i], maxLen, validator) == [] ==> x == []
    requires FrameFallbacks(frames[i], maxLen, validator) != [] ==>
      Fanout(x, p.others, FrameMessage(frames[i]), frames[i].failing)
    requires docs' == (if p.collSet then UpsertAll(docs, FrameInserts(frames[i], maxLen, validator)) else docs)
    ensures p' == p.(blocks := p'.blocks)
    ensures WsProgressAt(p', frames, i + 1, maxLen, validator, pub', sent', docs')
  {
    var blocks' := RoundBlocksStep(p.sent0, p.blocks, WsFallbacks(frames, i, maxLen, validator), p.others,
                                   sent, x, sent', FrameFallbacks(frames[i], maxLen, validator));
    if p.collSet {
      UpsertAllAppend(p.docs0, WsInserts(frames, i, maxLen, validator), FrameInserts(frames[i], maxLen, validator));
    }
    p' := p.(blocks := blocks');
  }

  /** The api.Server: its hub, its repository (possibly nil), the limit and validator it was
      built with, and the messages it has handed to the producer, in order. The producer's
      result for each publish is supplied with the request or frame. */
  class Server {
    const hub: Hub
    const repo: MongoStore?
    const maxMsgLen: int
    const validator: Option<Message -> bool>
    var publishCalls: seq<Message>
    /** The calls into the hub and the repository, shared by both. */
    ghost const log: EventLog

    ghost predicate Valid()
      reads this, repo
    {
      && hub.log == log
      && (repo != null ==> KeyedById(repo.docs) && repo.log == log)
    }

    /** NewServer, with a fresh hub that shares the repository's call log. The relay
        goroutine it starts is BroadcastLoop. */
    constructor (repo: MongoStore?, maxLen: int, validator: Option<Message -> bool>, ghost log: EventLog)
      requires repo != null ==> KeyedById(repo.docs) && repo.log == log
      ensures this.repo == repo && maxMsgLen == maxLen && this.validator == validator && this.log == log
      ensures fresh(hub) && hub.clients == {} && hub.sent == [] && hub.closed == []
      ensures publishCalls == [] && Valid()
    {
      this.repo, maxMsgLen, this.validator := repo, maxLen, validator;
      hub := new Hub(log);
      this.log := log;
      publishCalls := [];
    }

    /** The repository's InsertMessage, or nothing when there is no repository. */
    method InsertIfRepo(m: Message, insertErr: Option<string>)
      requires Valid()
      modifies repo, log
      ensures Valid()
      ensures log.events == old(log.events) + (if repo != null then [InsertCalled(m)] else [])
      ensures repo != null ==> repo.docs == AfterInsert(old(repo.docs), repo.collSet, m, insertErr)
      ensures repo != null ==> repo.collSet == old(repo.collSet) && repo.clientSet == old(repo.clientSet)
    {
      if repo != null {
        var _ := repo.InsertMessage(m, insertErr);
      }
    }

    /** One frame of the handleWS read loop on connection conn: fill in, then drop it if it is
        too long or invalid; otherwise publish, and when publishing fails broadcast it to every
        member but conn and insert it. */
    method HandleWsFrame(conn: ConnId, f: Frame) returns (ghost writes: seq<WriteAttempt>)
      requires Valid()
      modifies this, hub, repo, log
      ensures Valid()
      ensures log.events == old(log.events) + FallbackEvents(FrameFallbacks(f, maxMsgLen, validator), repo != null)
      ensures hub.clients == old(hub.clients) && hub.closed == old(hub.closed)
      ensures publishCalls == old(publishCalls) + FramePublishes(f, maxMsgLen, validator)
      ensures hub.sent == old(hub.sent) + writes
      ensures FrameFallbacks(f, maxMsgLen, validator) == [] ==> writes == []
      ensures FrameFallbacks(f, maxMsgLen, validator) != [] ==>
        Fanout(writes, hub.clients - {conn}, FrameMessage(f), f.failing)
      ensures repo != null ==> repo.collSet == old(repo.collSet)
      ensures repo != null && repo.collSet ==> repo.docs == UpsertAll(old(repo.docs), FrameInserts(f, maxMsgLen, validator))
      ensures repo != null && !repo.collSet ==> repo.docs == old(repo.docs)
    {
      writes := [];
      var msg := NormalizeWs(f.msg, f.freshId, f.now);
      if |msg.content| > maxMsgLen {
        return;
      }
      if validator.Some? && !validator.value(msg) {
        return;
      }
      publishCalls := publishCalls + [msg];
      if f.publishErr.Some? {
        writes := hub.BroadcastExcept(msg, conn, f.failing);
        InsertIfRepo(msg, f.insertErr);
      }
    }

    /** One turn of the handleWS read loop: frame i is handled and the progress moves on by
        that frame. */
    method ServeFrame(conn: ConnId, frames: seq<Frame>, i: nat, ghost p: WsProgress)
      returns (ghost p': WsProgress)
      requires i < |frames| && Valid()
      requires hub.clients - {conn} == p.others && p.collSet == (repo != null && repo.collSet)
      requires WsProgressAt(p, frames, i, maxMsgLen, validator, publishCalls, hub.sent, DocsOf(repo))
      modifies this, hub, repo, log
      ensures Valid()
      ensures hub.clients == old(hub.clients) && hub.closed == old(hub.closed)
      ensures repo != null ==> repo.collSet == old(repo.collSet)
      ensures p' == p.(blocks := p'.blocks)
      ensures WsProgressAt(p', frames, i + 1, maxMsgLen, validator, publishCalls, hub.sent, DocsOf(repo))
      ensures log.events == old(log.events) + FallbackEvents(FrameFallbacks(frames[i], maxMsgLen, validator), repo != null)
    {
      ghost var prevPub, prevSent, prevDocs := publishCalls, hub.sent, DocsOf(repo);
      var f := frames[i];
      ghost var x := HandleWsFrame(conn, f);
      p' := WsProgressStep(p, frames, i, maxMsgLen, validator, prevPub, prevSent, prevDocs, publishCalls, x, hub.sent, DocsOf(repo));
    }

    /** The handleWS read loop on the registered connection conn: its frames are handled in
        order until the read error that ends the loop. */
    method ReadLoop(conn: ConnId, frames: seq<Frame>) returns (ghost blocks: seq<seq<WriteAttempt>>)
      requires Valid() && conn in hub.clients
      modifies this, hub, repo, log
      ensures Valid()
      ensures hub.clients == old(hub.clients) && hub.closed == old(hub.closed)
      ensures publishCalls == old(publishCalls) + WsPublishes(frames, |frames|, maxMsgLen, validator)
      ensures hub.sent == old(hub.sent) + Flatten(blocks)
      ensures RoundBlocks(blocks, WsFallbacks(frames, |frames|, maxMsgLen, validator), old(hub.clients) - {conn})
      ensures log.events == old(log.events) + FallbackEvents(WsFallbacks(frames, |frames|, maxMsgLen, validator), repo != null)
      ensures repo != null ==> repo.collSet == old(repo.collSet)
      ensures repo != null && repo.collSet ==>
        repo.docs == UpsertAll(old(repo.docs), WsInserts(frames, |frames|, maxMsgLen, validator))
      ensures repo != null && !repo.collSet ==> repo.docs == old(repo.docs)
    {
      ghost var others := hub.clients - {conn};
      ghost var p := WsProgress(publishCalls, hub.sent, DocsOf(repo), repo != null && repo.collSet, others, []);
      var i := 0;
      while i < |frames|
        invariant 0 <= i <= |frames|
        invariant Valid()
        invariant hub.clients == old(hub.clients) && hub.closed == old(hub.closed)
        invariant repo != null ==> repo.collSet == old(repo.collSet)
        invariant p.pub0 == old(publishCalls) && p.sent0 == old(hub.sent) && p.others == others
        invariant p.docs0 == old(DocsOf(repo)) && p.collSet == (repo != null && repo.collSet)
        invariant WsProgressAt(p, frames, i, maxMsgLen, validator, publishCalls, hub.sent, DocsOf(repo))
        invariant log.events == old(log.events) + FallbackEvents(WsFallbacks(frames, i, maxMsgLen, validator), repo != null)
      {
        ghost var prevEvents := log.events;
        p := ServeFrame(conn, frames, i, p);
        WsEventsStep(frames, i, maxMsgLen, validator, repo != null, old(log.events), prevEvents, log.events);
        i := i + 1;
      }
      blocks := p.blocks;
    }

    /** handleWS on a new connection conn: 401 with nothing registered when the token is
        empty or rejected; nothing more when the upgrade fails; otherwise conn is registered,
        its frames are handled by the read loop, and conn is then removed and closed. */
    method HandleWS(token: string, verify: string -> bool, upgradeOk: bool, conn: ConnId, frames: seq<Frame>)
      returns (r: WsResult, ghost blocks: seq<seq<WriteAttempt>>)
      requires Valid()
      modifies this, hub, repo, log
      ensures Valid()
      ensures token == "" || !verify(token) ==>
        r == Rejected(Reply(StatusUnauthorized, Text("Unauthorized")))
      ensures token != "" && verify(token) && !upgradeOk ==> r == UpgradeFailed
      ensures !r.Served? ==>
        unchanged(this, hub, log) && (repo != null ==> unchanged(repo))
      ensures r.Served? <==> token != "" && verify(token) && upgradeOk
      ensures r.Served? ==>
        && hub.clients == old(hub.clients) - {conn}
        && hub.closed == old(hub.closed) + [conn]
        && publishCalls == old(publishCalls) + WsPublishes(frames, |frames|, maxMsgLen, validator)
        && hub.sent == old(hub.sent) + Flatten(blocks)
        && RoundBlocks(blocks, WsFallbacks(frames, |frames|, maxMsgLen, validator), old(hub.clients) - {conn})
        && log.events == old(log.events) + FallbackEvents(WsFallbacks(frames, |frames|, maxMsgLen, validator), repo != null)
      ensures r.Served? && repo != null ==> repo.collSet == old(repo.collSet)
      ensures r.Served? && repo != null && repo.collSet ==>
        repo.docs == UpsertAll(old(repo.docs), WsInserts(frames, |frames|, maxMsgLen, validator))
      ensures repo != null && !repo.collSet ==> repo.docs == old(repo.docs)
    {
      if token == "" || !verify(token) {
        return Rejected(Reply(StatusUnauthorized, Text("Unauthorized"))), [];
      }
      if !upgradeOk {
        return UpgradeFailed, [];
      }
      hub.Add(conn);
      assert hub.clients - {conn} == old(hub.clients) - {conn};
      blocks := ReadLoop(conn, frames);
      hub.Remove(conn);
      r := Served;
    }

    /** What a POST to /messages does besides replying: an admitted message is published;
        when publishing fails it is broadcast to every member and inserted; a rejected one
        has no effect at all. */
    twostate predicate PostEffect(req: Request, writes: seq<WriteAttempt>)
      requires req.Post?
      reads this, hub, repo, log
    {
      var admitted := req.body.Some? && Admitted(PostMessage(req.body.value, req.freshId, req.now), maxMsgLen, validator);
      var m := if req.body.Some? then PostMessage(req.body.value, req.freshId, req.now) else Message("", "", "", 0);
      && hub.clients == old(hub.clients) && hub.closed == old(hub.closed)
      && publishCalls == old(publishCalls) + (if admitted then [m] else [])
      && hub.sent == old(hub.sent) + writes
      && (admitted && req.publishErr.Some? ==> Fanout(writes, hub.clients, m, req.failing))
      && (!(admitted && req.publishErr.Some?) ==> writes == [])
      && log.events == old(log.events) +
           (if admitted && req.publishErr.Some? then FallbackEvents([Round(m, req.failing)], repo != null) else [])
      && (repo != null ==> repo.collSet == old(repo.collSet))
      && (repo != null ==>
            repo.docs == if admitted && req.publishErr.Some?
                         then AfterInsert(old(repo.docs), repo.collSet, m, req.insertErr)
                         else old(repo.docs))
    }

    /** The POST branch of handleMessages. */
    method HandlePost(req: Request) returns (reply: Reply, ghost writes: seq<WriteAttempt>)
      requires req.Post? && Valid()
      modifies this, hub, repo, log
      ensures Valid()
      ensures reply == PostReply(req.body, maxMsgLen, validator, req.freshId, req.now, req.publishErr)
      ensures PostEffect(req, writes)
    {
      writes := [];
      if req.body.None? {
        return Reply(StatusBadRequest, Text("bad request")), writes;
      }
      var msg := req.body.value;
      if |msg.content| > maxMsgLen {
        return Reply(StatusBadRequest, Text("message too long")), writes;
      }
      if msg.messageId == "" {
        msg := msg.(messageId := req.freshId);
      }
      msg := msg.(timestamp := req.now);
      if validator.Some? && !validator.value(msg) {
        return Reply(StatusBadRequest, Text("invalid")), writes;
      }
      publishCalls := publishCalls + [msg];
      if req.publishErr.Some? {
        writes := hub.Broadcast(msg, req.failing);
        InsertIfRepo(msg, req.insertErr);
        return Reply(StatusAccepted, Ack(msg.messageId, "broadcasted-fallback")), writes;
      }
      return Reply(StatusAccepted, Ack(msg.messageId, "enqueued")), writes;
    }

    /** The GET branch of handleMessages: every stored message, or 500 when the repository
        fails. The repository is dereferenced without a nil check. */
    method HandleGet(findErr: Option<string>, undecodable: set<string>, decodeErr: string, failsAfter: Option<nat>)
      returns (reply: Reply)
      requires Valid() && repo != null
      ensures GetAnswer(reply, "fetch failed", repo.docs, repo.collSet, findErr, undecodable, failsAfter)
    {
      var list := repo.GetAllMessages(findErr, undecodable, decodeErr, failsAfter);
      if list.Err? {
        return Reply(StatusInternalServerError, Text("fetch failed"));
      }
      return Reply(StatusOK, Messages(list.value));
    }

    /** /messages behind withAuth: 401 and no effect without an accepted bearer token;
        otherwise POST, GET, or 405 for any other method. */
    method ServeMessages(auth: string, verify: string -> bool, req: Request)
      returns (reply: Reply, ghost writes: seq<WriteAttempt>)
      requires Valid() && (Authorized(auth, verify) && req.Get? ==> repo != null)
      modifies this, hub, repo, log
      ensures Valid()
      ensures !Authorized(auth, verify) ==>
        reply == Reply(StatusUnauthorized, Text("Unauthorized"))
        && unchanged(this, hub, log) && (repo != null ==> unchanged(repo))
      ensures Authorized(auth, verify) && req.Post? ==>
        reply == PostReply(req.body, maxMsgLen, validator, req.freshId, req.now, req.publishErr)
        && PostEffect(req, writes)
      ensures Authorized(auth, verify) && req.Get? ==>
        && GetAnswer(reply, "fetch failed", repo.docs, repo.collSet, req.findErr, req.undecodable, req.failsAfter)
        && unchanged(this, hub, log) && unchanged(repo)
      ensures Authorized(auth, verify) && req.OtherMethod? ==>
        && reply == Reply(StatusMethodNotAllowed, NoBody)
        && unchanged(this, hub, log)
        && (repo != null ==> unchanged(repo))
    {
      writes := [];
      var token := BearerToken(auth);
      if token.None? || !verify(token.value) {
        return Reply(StatusUnauthorized, Text("Unauthorized")), writes;
      }
      match req {
        case Post(_, _, _, _, _, _) =>
          reply, writes := HandlePost(req);
        case Get(findErr, undecodable, decodeErr, failsAfter) =>
          reply := HandleGet(findErr, undecodable, decodeErr, failsAfter);
        case OtherMethod =>
          reply := Reply(StatusMethodNotAllowed, NoBody);
      }
    }

    /** broadcastLoop: each bus message is broadcast to every member and then inserted, in
        delivery order; insert errors are ignored. The repository is dereferenced without a
        nil check. */
    method BroadcastLoop(ds: seq<Delivery>) returns (ghost blocks: seq<seq<WriteAttempt>>)
      requires Valid() && repo != null
      modifies hub, repo, log
      ensures Valid()
      ensures hub.clients == old(hub.clients) && hub.closed == old(hub.closed)
      ensures hub.sent == old(hub.sent) + Flatten(blocks)
      ensures RoundBlocks(blocks, DeliveryRounds(ds, |ds|), hub.clients)
      ensures repo.collSet == old(repo.collSet)
      ensures repo.collSet ==> repo.docs == UpsertAll(old(repo.docs), DeliveryInserts(ds, |ds|))
      ensures !repo.collSet ==> repo.docs == old(repo.docs)
      ensures log.events == old(log.events) + RelaySteps(ds, |ds|)
      ensures forall i :: 0 <= i < |ds| ==>
        log.events[|old(log.events)| + 2 * i] == Broadcasted(ds[i].msg)
        && log.events[|old(log.events)| + 2 * i + 1] == InsertCalled(ds[i].msg)
    {
      ghost var p := RelayProgress(hub.sent, repo.docs, log.events, repo.collSet, hub.clients, []);
      var i := 0;
      while i < |ds|
        invariant 0 <= i <= |ds|
        invariant Valid()
        invariant hub.clients == old(hub.clients) && hub.closed == old(hub.closed)
        invariant repo.collSet == old(repo.collSet)
        invariant p == RelayProgress(old(hub.sent), old(repo.docs), old(log.events), repo.collSet, hub.clients, p.blocks)
        invariant RelayProgressAt(p, ds, i, hub.sent, repo.docs, log.events)
      {
        ghost var prevSent, prevDocs, prevEvents := hub.sent, repo.docs, log.events;
        var d := ds[i];
        ghost var x := hub.Broadcast(d.msg, d.failing);
        var _ := repo.InsertMessage(d.msg, d.insertErr);
        p := RelayProgressStep(p, ds, i, prevSent, prevDocs, prevEvents, x, hub.sent, repo.docs);
        i := i + 1;
      }
      blocks := p.blocks;
      RelayStepsOrder(ds, |ds|);
    }
  }
}
