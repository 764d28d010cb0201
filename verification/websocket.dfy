/** What the relay observes of a live websocket connection: an opaque handle, and a log of
    the JSON writes made to it with the outcome of each. */
module Websocket {
  import opened Models

  /** An opaque connection handle (the *websocket.Conn pointer). */
  datatype ConnId = Conn(handle: nat)

  /** One WriteJSON call: the connection written to, the message, and whether it succeeded. */
  datatype WriteAttempt = WriteAttempt(conn: ConnId, msg: Message, ok: bool)

  /** The connections a write log touches. */
  function Conns(w: seq<WriteAttempt>): (cs: set<ConnId>)
    ensures forall i :: 0 <= i < |w| ==> w[i].conn in cs
  {
    set i | 0 <= i < |w| :: w[i].conn
  }

  /** No connection is written twice. */
  predicate Distinct(w: seq<WriteAttempt>) {
    forall i, j :: 0 <= i < j < |w| ==> w[i].conn != w[j].conn
  }

  /** A write log is one fan-out of msg to targets: taking writes off its end, each goes to
      a target not yet written, carries msg, and fails exactly when its connection is in
      `failing`, until every target has been written. */
  ghost predicate Fanout(w: seq<WriteAttempt>, targets: set<ConnId>, msg: Message, failing: set<ConnId>)
    decreases |w|
  {
    if w == [] then targets == {}
    else
      var a := w[|w| - 1];
      && a.conn in targets
      && a.msg == msg
      && a.ok == (a.conn !in failing)
      && Fanout(w[..|w| - 1], targets - {a.conn}, msg, failing)
  }

  /** How many writes of the log go to connection c. */
  function WritesTo(w: seq<WriteAttempt>, c: ConnId): nat {
    if w == [] then 0
    else WritesTo(w[..|w| - 1], c) + (if w[|w| - 1].conn == c then 1 else 0)
  }

  lemma FanoutEmpty(msg: Message, failing: set<ConnId>)
    ensures Fanout([], {}, msg, failing)
  {
  }

  /** One more write, to a connection not yet written, extends a fan-out by that connection. */
  lemma FanoutExtend(w: seq<WriteAttempt>, targets: set<ConnId>, msg: Message, failing: set<ConnId>, a: WriteAttempt)
    requires Fanout(w, targets, msg, failing)
    requires a.conn !in targets && a.msg == msg && a.ok == (a.conn !in failing)
    ensures Fanout(w + [a], targets + {a.conn}, msg, failing)
  {
    var w' := w + [a];
    assert w'[..|w'| - 1] == w;
    assert (targets + {a.conn}) - {a.conn} == targets;
  }

  lemma ConnsAppend(w: seq<WriteAttempt>, a: WriteAttempt)
    ensures Conns(w + [a]) == Conns(w) + {a.conn}
  {
    var w' := w + [a];
    forall x | x in Conns(w') ensures x in Conns(w) + {a.conn} {
      var i :| 0 <= i < |w'| && w'[i].conn == x;
      if i < |w| { assert w[i].conn == x; }
    }
    forall x | x in Conns(w) ensures x in Conns(w') {
      var i :| 0 <= i < |w| && w[i].conn == x;
      assert w'[i].conn == x;
    }
    assert w'[|w|].conn == a.conn;
  }

  /** A fan-out writes every target exactly once and nothing else: the log is as long as the
      target set, each write carries msg, fails exactly on `failing`, and the connection of
      every write is a target. */
  lemma {:induction false} FanoutShape(w: seq<WriteAttempt>, targets: set<ConnId>, msg: Message, failing: set<ConnId>)
    requires Fanout(w, targets, msg, failing)
    ensures |w| == |targets| && Conns(w) == targets && Distinct(w)
    ensures forall i :: 0 <= i < |w| ==> w[i].msg == msg && w[i].ok == (w[i].conn !in failing)
    decreases |w|
  {
    if w != [] {
      var w', a := w[..|w| - 1], w[|w| - 1];
      FanoutShape(w', targets - {a.conn}, msg, failing);
      ConnsAppend(w', a);
      assert w' + [a] == w;
    }
  }

  /** Counted per connection: a fan-out writes each target once and any other connection
      never. */
  lemma {:induction false} FanoutWritesEachOnce(w: seq<WriteAttempt>, targets: set<ConnId>, msg: Message, failing: set<ConnId>, c: ConnId)
    requires Fanout(w, targets, msg, failing)
    ensures WritesTo(w, c) == if c in targets then 1 else 0
    decreases |w|
  {
    if w != [] {
      var a := w[|w| - 1];
      FanoutWritesEachOnce(w[..|w| - 1], targets - {a.conn}, msg, failing, c);
    }
  }

  /** Fan-outs to the same targets with the same failures agree as multisets of writes:
      whatever order the map iteration takes, the same writes happen. */
  lemma {:induction false} FanoutSameWrites(w1: seq<WriteAttempt>, w2: seq<WriteAttempt>, targets: set<ConnId>, msg: Message, failing: set<ConnId>)
    requires Fanout(w1, targets, msg, failing) && Fanout(w2, targets, msg, failing)
    ensures multiset(w1) == multiset(w2)
    decreases |w1|
  {
    if w1 != [] {
      var a := w1[|w1| - 1];
      var w2' := RemoveConn(w2, targets, msg, failing, a.conn);
      FanoutSameWrites(w1[..|w1| - 1], w2', targets - {a.conn}, msg, failing);
      assert w1 == w1[..|w1| - 1] + [a];
    }
  }

  /** Takes the write to c out of a fan-out that includes c: the rest is a fan-out to the
      other targets, and the writes removed are exactly that one write. */
  ghost function RemoveConn(w: seq<WriteAttempt>, targets: set<ConnId>, msg: Message, failing: set<ConnId>, c: ConnId): (r: seq<WriteAttempt>)
    requires Fanout(w, targets, msg, failing) && c in targets
    ensures Fanout(r, targets - {c}, msg, failing)
    ensures multiset(w) == multiset(r) + multiset{WriteAttempt(c, msg, c !in failing)}
    decreases |w|
  {
    var w', a := w[..|w| - 1], w[|w| - 1];
    assert w == w' + [a];
    if a.conn == c then
      w'
    else
      var r' := RemoveConn(w', targets - {a.conn}, msg, failing, c);
      assert (targets - {a.conn}) - {c} == (targets - {c}) - {a.conn};
      FanoutExtend(r', (targets - {c}) - {a.conn}, msg, failing, a);
      assert (targets - {c}) - {a.conn} + {a.conn} == targets - {c};
      r' + [a]
  }

  /** One broadcast round: the message and the connections whose write fails in that round. */
  datatype Round = Round(msg: Message, failing: set<ConnId>)

  /** Consecutive write logs joined in order. */
  function Flatten(blocks: seq<seq<WriteAttempt>>): (w: seq<WriteAttempt>)
    decreases |blocks|
  {
    if blocks == [] then [] else Flatten(blocks[..|blocks| - 1]) + blocks[|blocks| - 1]
  }

  /** Each block is one fan-out to targets, of the corresponding round's message. */
  ghost predicate RoundBlocks(blocks: seq<seq<WriteAttempt>>, rounds: seq<Round>, targets: set<ConnId>) {
    && |blocks| == |rounds|
    && forall k :: 0 <= k < |blocks| ==> Fanout(blocks[k], targets, rounds[k].msg, rounds[k].failing)
  }

  lemma {:induction false} WritesToAppend(w: seq<WriteAttempt>, x: seq<WriteAttempt>, c: ConnId)
    ensures WritesTo(w + x, c) == WritesTo(w, c) + WritesTo(x, c)
    decreases |x|
  {
    if x == [] {
      assert w + x == w;
    } else {
      assert (w + x)[..|w + x| - 1] == w + x[..|x| - 1];
      WritesToAppend(w, x[..|x| - 1], c);
    }
  }

  /** Over several rounds to the same targets, every target is written once per round and no
      other connection is written. */
  lemma {:induction false} RoundsWriteEachTargetOncePerRound(blocks: seq<seq<WriteAttempt>>, rounds: seq<Round>,
                                                             targets: set<ConnId>, c: ConnId)
    requires RoundBlocks(blocks, rounds, targets)
    ensures WritesTo(Flatten(blocks), c) == if c in targets then |rounds| else 0
    decreases |blocks|
  {
    if blocks != [] {
      var n := |blocks| - 1;
      assert RoundBlocks(blocks[..n], rounds[..n], targets) by {
        forall k | 0 <= k < n
          ensures Fanout(blocks[..n][k], targets, rounds[..n][k].msg, rounds[..n][k].failing)
        {
          assert blocks[..n][k] == blocks[k] && rounds[..n][k] == rounds[k];
        }
      }
      RoundsWriteEachTargetOncePerRound(blocks[..n], rounds[..n], targets, c);
      WritesToAppend(Flatten(blocks[..n]), blocks[n], c);
      FanoutWritesEachOnce(blocks[n], targets, rounds[n].msg, rounds[n].failing, c);
    }
  }

  /** Appending one more round's fan-out as a new block. */
  lemma RoundBlocksExtend(blocks: seq<seq<WriteAttempt>>, rounds: seq<Round>, targets: set<ConnId>,
                          x: seq<WriteAttempt>, r: Round)
    requires RoundBlocks(blocks, rounds, targets) && Fanout(x, targets, r.msg, r.failing)
    ensures RoundBlocks(blocks + [x], rounds + [r], targets)
    ensures Flatten(blocks + [x]) == Flatten(blocks) + x
  {
    assert (blocks + [x])[..|blocks|] == blocks;
  }

  /** A log that is base followed by one block per round stays so when the writes of at most
      one more round are appended. */
  lemma RoundBlocksStep(base: seq<WriteAttempt>, blocks: seq<seq<WriteAttempt>>, rounds: seq<Round>,
                        targets: set<ConnId>, prev: seq<WriteAttempt>, x: seq<WriteAttempt>,
                        next: seq<WriteAttempt>, more: seq<Round>)
    returns (blocks': seq<seq<WriteAttempt>>)
    requires prev == base + Flatten(blocks) && RoundBlocks(blocks, rounds, targets)
    requires next == prev + x && |more| <= 1
    requires more == [] ==> x == []
    requires more != [] ==> Fanout(x, targets, more[0].msg, more[0].failing)
    ensures next == base + Flatten(blocks') && RoundBlocks(blocks', rounds + more, targets)
  {
    if more == [] {
      assert next == prev && rounds + more == rounds;
      blocks' := blocks;
    } else {
      assert more == [Round(more[0].msg, more[0].failing)];
      RoundBlocksExtend(blocks, rounds, targets, x, Round(more[0].msg, more[0].failing));
      blocks' := blocks + [x];
    }
  }

  /** The connections of the failed writes of a log, in write order. */
  function FailedConns(w: seq<WriteAttempt>): (cs: seq<ConnId>)
    ensures |cs| <= |w|
  {
    if w == [] then []
    else FailedConns(w[..|w| - 1]) + (if w[|w| - 1].ok then [] else [w[|w| - 1].conn])
  }

  lemma {:induction false} FailedConnsAppend(w: seq<WriteAttempt>, x: seq<WriteAttempt>)
    ensures FailedConns(w + x) == FailedConns(w) + FailedConns(x)
    decreases |x|
  {
    if x == [] {
      assert w + x == w;
    } else {
      assert (w + x)[..|w + x| - 1] == w + x[..|x| - 1];
      FailedConnsAppend(w, x[..|x| - 1]);
    }
  }

  /** The failed writes of a fan-out are exactly those to the failing targets, one each. */
  lemma {:induction false} FanoutFailedConns(w: seq<WriteAttempt>, targets: set<ConnId>, msg: Message, failing: set<ConnId>)
    requires Fanout(w, targets, msg, failing)
    ensures forall c :: c in FailedConns(w) <==> c in targets * failing
    ensures |FailedConns(w)| == |targets * failing|
    decreases |w|
  {
    if w != [] {
      var a := w[|w| - 1];
      FanoutFailedConns(w[..|w| - 1], targets - {a.conn}, msg, failing);
      assert targets * failing == (targets - {a.conn}) * failing + (if a.conn in failing then {a.conn} else {});
    }
  }
}
