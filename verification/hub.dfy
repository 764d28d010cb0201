/** The subscriber registry of the api package (backend/src/api/hub.go). */
module ApiHub {
  import opened Models
  import opened Websocket
  import opened Trace

  /** Hub: the set of registered connections, plus the observable effects on them: every
      WriteJSON call in order with its outcome, and every Close call in order. The RWMutex
      only serialises these updates and is not modelled. */
  class Hub {
    var clients: set<ConnId>
    var sent: seq<WriteAttempt>
    var closed: seq<ConnId>
    ghost const log: EventLog

    /** NewHub: an empty registry, recording its broadcasts in log. */
    constructor (ghost log: EventLog)
      ensures clients == {} && sent == [] && closed == [] && this.log == log
    {
      clients, sent, closed := {}, [], [];
      this.log := log;
    }

    /** Add registers conn; adding a member again changes nothing. */
    method Add(conn: ConnId)
      modifies this
      ensures clients == old(clients) + {conn}
      ensures conn in old(clients) ==> clients == old(clients)
      ensures sent == old(sent) && closed == old(closed)
    {
      clients := clients + {conn};
    }

    /** Remove unregisters conn and closes it, whether or not it was registered. */
    method Remove(conn: ConnId)
      modifies this
      ensures clients == old(clients) - {conn}
      ensures conn !in clients
      ensures closed == old(closed) + [conn]
      ensures sent == old(sent)
    {
      clients := clients - {conn};
      closed := closed + [conn];
    }

    /** The write loop shared by both broadcasts: one WriteJSON of msg to each target, in
        any order. A failed write is only logged: the connection stays registered and the
        remaining targets are still written. */
    method WriteEach(targets: set<ConnId>, msg: Message, failing: set<ConnId>) returns (ghost writes: seq<WriteAttempt>)
      modifies this
      ensures clients == old(clients) && closed == old(closed)
      ensures sent == old(sent) + writes
      ensures Fanout(writes, targets, msg, failing)
    {
      var pending := targets;
      ghost var done: set<ConnId> := {};
      writes := [];
      while pending != {}
        invariant done !! pending && done + pending == targets
        invariant clients == old(clients) && closed == old(closed)
        invariant sent == old(sent) + writes
        invariant Fanout(writes, done, msg, failing)
        decreases |pending|
      {
        var c :| c in pending;
        var attempt := WriteAttempt(c, msg, c !in failing);
        FanoutExtend(writes, done, msg, failing, attempt);
        sent, writes := sent + [attempt], writes + [attempt];
        done, pending := done + {c}, pending - {c};
      }
    }

    /** Broadcast writes msg once to every member and never removes one. */
    method Broadcast(msg: Message, failing: set<ConnId>) returns (ghost writes: seq<WriteAttempt>)
      modifies this, log
      ensures clients == old(clients) && closed == old(closed)
      ensures sent == old(sent) + writes
      ensures Fanout(writes, clients, msg, failing)
      ensures log.events == old(log.events) + [Broadcasted(msg)]
    {
      writes := WriteEach(clients, msg, failing);
      log.events := log.events + [Broadcasted(msg)];
    }

    /** BroadcastExcept writes msg once to every member other than except, and never to
        except; with a non-member except it makes the same writes as Broadcast. The skip of
        except is taken before the writes rather than inside the loop. */
    method BroadcastExcept(msg: Message, except: ConnId, failing: set<ConnId>) returns (ghost writes: seq<WriteAttempt>)
      modifies this, log
      ensures clients == old(clients) && closed == old(closed)
      ensures sent == old(sent) + writes
      ensures Fanout(writes, clients - {except}, msg, failing)
      ensures except !in clients ==> Fanout(writes, clients, msg, failing)
      ensures log.events == old(log.events) + [Broadcasted(msg)]
    {
      writes := WriteEach(clients - {except}, msg, failing);
      log.events := log.events + [Broadcasted(msg)];
      assert except !in clients ==> clients - {except} == clients;
    }
  }
}
