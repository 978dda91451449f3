/** The server object behind the protocol: its methods are the bodies of the locked sections, and each
    is proved to perform exactly the protocol steps it names. */
module BearerboxServer {
  import opened Common
  import opened SqlStore
  import opened Bearerbox
  import opened BearerboxSafety
  import BearerboxLoss

  lemma {:induction false} RunAppend(s: State, first: seq<Bearerbox.Event>, mid: State, e: Bearerbox.Event)
    requires Bearerbox.Run(s, first, mid) && Bearerbox.Enabled(mid, e)
    ensures Bearerbox.Run(s, first + [e], Bearerbox.Apply(mid, e))
    decreases |first|
  {
    if first != [] {
      RunAppend(Bearerbox.Apply(s, first[0]), first[1..], mid, e);
      assert (first + [e])[1..] == first[1..] + [e];
    }
  }

  lemma FlushTrace(before: State, trace: seq<Bearerbox.Event>, start: State, end: State, b: nat, uuid: Uuid)
    requires Bearerbox.Run(before, trace, start) && Bearerbox.Enabled(start, FlushOne(b, uuid))
    requires Bearerbox.Enabled(Bearerbox.Apply(start, FlushOne(b, uuid)), Callback(Reader(b)))
    requires end == Bearerbox.Apply(Bearerbox.Apply(start, FlushOne(b, uuid)), Callback(Reader(b)))
    ensures Bearerbox.Run(before, trace + [FlushOne(b, uuid), Callback(Reader(b))], end)
  {
    RunAppend(before, trace, start, FlushOne(b, uuid));
    RunAppend(before, trace + [FlushOne(b, uuid)], Bearerbox.Apply(start, FlushOne(b, uuid)), Callback(Reader(b)));
    assert trace + [FlushOne(b, uuid)] + [Callback(Reader(b))] == trace + [FlushOne(b, uuid), Callback(Reader(b))];
  }

  /** A batch of fetched messages by their numbers. */
  function Batch(messages: seq<(Id, Row)>): map<Id, Row> {
    if messages == [] then map[] else Batch(messages[1..])[messages[0].0 := messages[0].1]
  }

  predicate Distinct(messages: seq<(Id, Row)>) {
    forall j, k :: 0 <= j < k < |messages| ==> messages[j].0 != messages[k].0
  }

  lemma {:induction false} BatchKeys(messages: seq<(Id, Row)>)
    requires Distinct(messages)
    ensures forall id :: id in Batch(messages) <==> exists j :: 0 <= j < |messages| && messages[j].0 == id
    ensures forall j :: 0 <= j < |messages| ==> messages[j].0 in Batch(messages) && Batch(messages)[messages[j].0] == messages[j].1
  {
    if messages != [] {
      var rest := messages[1..];
      assert forall j :: 0 <= j < |rest| ==> rest[j] == messages[j + 1];
      BatchKeys(rest);
      forall id | id in Batch(messages) ensures exists j :: 0 <= j < |messages| && messages[j].0 == id {
        if id != messages[0].0 {
          var j :| 0 <= j < |rest| && rest[j].0 == id;
          assert messages[j + 1].0 == id;
        } else {
          assert messages[0].0 == id;
        }
      }
      forall j | 0 <= j < |messages| ensures messages[j].0 in Batch(messages) && Batch(messages)[messages[j].0] == messages[j].1 {
        if j > 0 { assert rest[j - 1] == messages[j]; }
      }
    }
  }

  lemma BatchShrinks(messages: seq<(Id, Row)>, i: nat)
    requires i < |messages| && Distinct(messages)
    ensures Batch(messages[i + 1..]) == Batch(messages[i..]) - {messages[i].0}
    ensures messages[i].0 in Batch(messages[i..]) && Batch(messages[i..])[messages[i].0] == messages[i].1
  {
    var rest, more := messages[i..], messages[i + 1..];
    assert rest[1..] == more && forall j :: 0 <= j < |more| ==> more[j] == messages[i + 1 + j];
    BatchKeys(more);
    assert messages[i].0 !in Batch(more);
  }

  lemma BatchIsFetched(s: State, selected: seq<Id>, messages: seq<(Id, Row)>)
    requires Bearerbox.Enabled(s, FetchStored(selected)) && |messages| == |selected|
    requires forall i :: 0 <= i < |selected| ==> messages[i] == (selected[i], s.store.rows[(s.table, selected[i])])
    ensures Batch(messages) == BatchOf(s, selected)
  {
    BatchKeys(messages);
    forall id ensures id in Batch(messages) <==> id in BatchOf(s, selected) {
      if id in selected {
        var j :| 0 <= j < |selected| && selected[j] == id;
        assert messages[j].0 == id;
      }
    }
    forall id | id in Batch(messages) ensures Batch(messages)[id] == BatchOf(s, selected)[id] {
      var j :| 0 <= j < |messages| && messages[j].0 == id;
    }
  }

  class BearerboxState {
    const db: SqlDatabase
    const enableQueue: bool
    var queue: multiset<Msg>
    var boxes: seq<Box>
    var hands: map<Thread, Hand>
    var batch: map<Id, Row>
    ghost var log: seq<(Msg, int)>
    ghost var delivered: set<Uuid>
    ghost var refused: set<Uuid>
    ghost var accepted: set<Uuid>
    ghost var place: map<Msg, Place>

    ghost function View(): State
      reads this, db
    {
      State(db.tables.TableName(BearerboxQueueKind), queue, boxes, hands, batch, db.View(),
            log, delivered, refused, accepted, place)
    }

    constructor (db: SqlDatabase, enableQueue: bool, count: nat)
      requires SqlStore.Valid(db.View())
      ensures this.db == db && this.enableQueue == enableQueue && |boxes| == count
      ensures db.claims == {} ==>
                (forall i, j :: Parked(View(), i) && Parked(View(), j) && UuidOf(View(), i) == UuidOf(View(), j) ==> i == j) ==>
                Initial(View())
    {
      this.db, this.enableQueue := db, enableQueue;
      queue, hands, batch := multiset{}, map[], map[];
      boxes := seq(count, _ => Box(false, map[], None));
      log, delivered, refused, accepted, place := [], {}, {}, {}, map[];
    }

    /** Row `id` has left the claim dictionaries, and its table - the one they name, or the primary one - unless
        the DELETE failed. */
    twostate predicate RowGivenUp(id: Id, deleteOk: bool)
      reads db
    {
      var table := if id in old(db.pendingStore) then old(db.pendingStore)[id] else db.tables.storeTable;
      && db.rows == (if deleteOk then old(db.rows) - {(table, id)} else old(db.rows))
      && db.pendingMsg == old(db.pendingMsg) - {id} && db.pendingStore == old(db.pendingStore) - {id}
    }

    /** smpp_bearerbox_requeue_result for a stored row, the submit callback otherwise. `deleteOk` is whether the
        DELETE of the row, if there is one, succeeded. */
    method RunCallback(t: Thread, deleteOk: bool)
      requires Bearerbox.Enabled(View(), Callback(t))
      modifies this, db
      ensures var c := old(hands)[t];
              View() == if !deleteOk && c.m.origin.FromRow? && IsFinal(c.status) then BearerboxLoss.AfterFailedDelete(old(View()), t)
                        else Bearerbox.Apply(old(View()), Callback(t))
      ensures var Finishing(m, status) := old(hands)[t];
              && log == old(log) + [(m, status)] && hands == old(hands) - {t}
              && (m.origin.FromSubmit? || !(status == ESME_ROK || status == ESME_RSUBMITFAIL) ==> db.View() == old(db.View()))
              && (m.origin.FromRow? && (status == ESME_ROK || status == ESME_RSUBMITFAIL) ==> RowGivenUp(m.origin.id, deleteOk))
    {
      var m, status := hands[t].m, hands[t].status;
      if m.origin.FromRow? {
        if status == ESME_ROK {
          var _ := db.RemoveMessage(m.origin.id, false, deleteOk);
        } else if status == ESME_RSUBMITFAIL {
          var _ := db.RemoveMessage(m.origin.id, false, deleteOk);
        }
      } else if status == ESME_ROK {
        accepted := accepted + {m.uuid};
      }
      hands := hands - {t};
      log := log + [(m, status)];
      place := place[m := Completed(status)];
    }

    method SearchOnline() returns (found: bool)
      ensures found <==> exists b :: 0 <= b < |boxes| && boxes[b].alive
    {
      var b := 0;
      found := false;
      while b < |boxes| && !found
        invariant 0 <= b <= |boxes|
        invariant found ==> exists c :: 0 <= c < |boxes| && boxes[c].alive
        invariant !found ==> forall c :: 0 <= c < b ==> !boxes[c].alive
      {
        found := boxes[b].alive;
        b := b + 1;
      }
    }

    /** Without a bearerbox: the status for the callback says whether the message could be parked. */
    method ParkOrReject(t: Thread, newId: Id, insertOk: bool) returns (ghost offer: Bearerbox.Event)
      requires t in hands && hands[t].Carrying?
      requires (View().table, newId) !in db.used
      modifies this, db
      ensures offer == Offer(t, false, if enableQueue && insertOk then Some(newId) else None)
      ensures View() == Bearerbox.Apply(old(View()), offer)
      ensures hands == old(hands)[t := Finishing(old(hands)[t].m, if enableQueue && insertOk then ESME_ROK else ESME_RSYSERR)]
      ensures queue == old(queue) && log == old(log)
    {
      var m := hands[t].m;
      var ok := false;
      if enableQueue {
        ok := db.AddMessage(Row(MtPush, m.service, m.uuid), BearerboxQueueKind, newId, insertOk);
      }
      hands := hands[t := Finishing(m, if ok then ESME_ROK else ESME_RSYSERR)];
      offer := Offer(t, false, if enableQueue && insertOk then Some(newId) else None);
    }

    /** Queue when some bearerbox is online, else park or reject and answer at once. `newId` and
        `insertOk` are what the database does with the INSERT. */
    method AddToQueue(t: Thread, newId: Id, insertOk: bool) returns (online: bool, ghost trace: seq<Bearerbox.Event>)
      requires t in hands && hands[t].Carrying?
      requires (View().table, newId) !in db.used
      modifies this, db
      ensures online <==> exists b :: 0 <= b < |old(boxes)| && old(boxes)[b].alive
      ensures trace == if online then [Offer(t, true, None)]
                       else [Offer(t, false, if enableQueue && insertOk then Some(newId) else None), Callback(t)]
      ensures Bearerbox.Run(old(View()), trace, View())
      ensures var m := old(hands)[t].m;
              && hands == old(hands) - {t}
              && (online ==> queue == old(queue) + multiset{m} && log == old(log))
              && (!online ==> queue == old(queue)
                              && log == old(log) + [(m, if enableQueue && insertOk then ESME_ROK else ESME_RSYSERR)])
    {
      var m := hands[t].m;
      ghost var before := View();
      online := SearchOnline();
      if online {
        queue := queue + multiset{m};
        hands := hands - {t};
        place := place[m := InQueue];
        trace := [Offer(t, true, None)];
        assert View() == Bearerbox.Apply(before, trace[0]);
      } else {
        ghost var offer := ParkOrReject(t, newId, insertOk);
        ghost var mid := View();
        RunCallback(t, true);
        trace := [offer, Callback(t)];
        assert trace[1..] == [Callback(t)] && View() == Bearerbox.Apply(mid, Callback(t));
        assert Bearerbox.Run(mid, trace[1..], View());
      }
    }

    /** smpp_bearerbox_add_message, called once a submit is routed. */
    method AddMessage(n: nat, m: Msg, newId: Id, insertOk: bool) returns (ghost trace: seq<Bearerbox.Event>)
      requires Bearerbox.Enabled(View(), Submit(n, m)) && (View().table, newId) !in db.used
      modifies this, db
      ensures |trace| >= 2 && trace[0] == Submit(n, m) && trace[1].Offer? && trace[1].t == Submitter(n)
      ensures Bearerbox.Run(old(View()), trace, View())
    {
      ghost var before := View();
      hands := hands[Submitter(n) := Carrying(m)];
      place := place[m := InHand(Submitter(n))];
      assert View() == Bearerbox.Apply(before, Submit(n, m));
      var _, rest := AddToQueue(Submitter(n), newId, insertOk);
      trace := [Submit(n, m)] + rest;
      assert trace[1..] == rest;
    }

    /** The writer's locked section up to the write: the message is in open_acks before it is sent. */
    method Deliver(b: nat, writeOk: bool)
      requires Bearerbox.Enabled(View(), Register(b, writeOk))
      modifies this
      ensures View() == Bearerbox.Apply(old(View()), Register(b, writeOk))
      ensures var m := old(hands)[Writer(b)].m;
              && boxes[b].openAcks == old(boxes)[b].openAcks[m.uuid := m] && boxes[b].alive
              && hands == old(hands) - {Writer(b)}
    {
      var m, box := hands[Writer(b)].m, boxes[b];
      boxes := boxes[b := box.(openAcks := box.openAcks[m.uuid := m], writing := Some(Write(m, writeOk)))];
      hands := hands - {Writer(b)};
      place := place[m := InAcks(b)];
    }

    /** The rest of that section: a failed write takes the message back and marks the box dead. */
    method FinishWrite(b: nat) returns (requeue: bool)
      requires Bearerbox.Enabled(View(), WriteDone(b))
      modifies this
      ensures View() == Bearerbox.Apply(old(View()), WriteDone(b))
      ensures requeue <==> !old(boxes)[b].writing.value.ok
      ensures var m := old(boxes)[b].writing.value.m;
              && boxes[b].writing.None?
              && (requeue ==> !boxes[b].alive && boxes[b].openAcks == old(boxes)[b].openAcks - {m.uuid}
                              && hands == old(hands)[Writer(b) := Carrying(m)])
              && (!requeue ==> boxes[b].alive == old(boxes)[b].alive && boxes[b].openAcks == old(boxes)[b].openAcks
                               && hands == old(hands))
    {
      var Write(m, ok) := boxes[b].writing.value;
      if ok {
        boxes := boxes[b := boxes[b].(writing := None)];
      } else {
        boxes := boxes[b := Box(false, boxes[b].openAcks - {m.uuid}, None)];
        hands := hands[Writer(b) := Carrying(m)];
        place := place[m := InHand(Writer(b))];
      }
      requeue := !ok;
    }

    method TakeFromQueue(b: nat, m: Msg)
      requires Bearerbox.Enabled(View(), Take(b, m))
      modifies this
      ensures View() == Bearerbox.Apply(old(View()), Take(b, m))
      ensures queue == old(queue) - multiset{m} && hands == old(hands)[Writer(b) := Carrying(m)]
    {
      queue := queue - multiset{m};
      hands := hands[Writer(b) := Carrying(m)];
      place := place[m := InHand(Writer(b))];
    }

    /** The whole locked section of the writer; `requeue` as the source computes it. */
    method WriteSection(b: nat, writeOk: bool) returns (requeue: bool, ghost trace: seq<Bearerbox.Event>)
      requires b < |boxes| && boxes[b].writing.None? && Writer(b) in hands && hands[Writer(b)].Carrying?
      modifies this
      ensures requeue <==> !(old(boxes)[b].alive && writeOk)
      ensures trace == if old(boxes)[b].alive then [Register(b, writeOk), WriteDone(b)] else []
      ensures Bearerbox.Run(old(View()), trace, View())
      ensures requeue ==> Writer(b) in hands && hands[Writer(b)].Carrying?
    {
      requeue, trace := true, [];
      if boxes[b].alive {
        ghost var before := View();
        Deliver(b, writeOk);
        ghost var mid := View();
        requeue := FinishWrite(b);
        trace := [Register(b, writeOk), WriteDone(b)];
        assert trace[1..] == [WriteDone(b)] && Bearerbox.Run(mid, trace[1..], View());
      }
    }

    /** One round of the writer of box `b`: take a message, and write it if the connection is up; if
        it is not, or the write fails, offer it again. */
    method WriterRound(b: nat, m: Msg, writeOk: bool, newId: Id, insertOk: bool)
      returns (ghost write: seq<Bearerbox.Event>, ghost offer: seq<Bearerbox.Event>)
      requires Bearerbox.Enabled(View(), Take(b, m)) && (View().table, newId) !in db.used
      modifies this, db
      ensures write == if old(boxes)[b].alive then [Register(b, writeOk), WriteDone(b)] else []
      ensures if old(boxes)[b].alive && writeOk then offer == [] else Offers(offer, Writer(b))
      ensures Bearerbox.Run(Bearerbox.Apply(old(View()), Take(b, m)), write + offer, View())
    {
      TakeFromQueue(b, m);
      ghost var start := View();
      var requeue;
      requeue, write := WriteSection(b, writeOk);
      offer := [];
      assert write + offer == write;
      if requeue {
        ghost var now := View();
        var online;
        online, offer := AddToQueue(Writer(b), newId, insertOk);
        RunConcat(start, write, now, offer, View());
      }
    }

    /** The reader takes a message out of open_acks to settle it with `status`. */
    method Settle(b: nat, uuid: Uuid, status: int)
      requires b < |boxes| && uuid in boxes[b].openAcks
      modifies this
      ensures var m, s := old(boxes)[b].openAcks[uuid], old(View());
              View() == s.(boxes := s.boxes[b := s.boxes[b].(openAcks := s.boxes[b].openAcks - {uuid})],
                           hands := s.hands[Reader(b) := Finishing(m, status)],
                           place := s.place[m := InHand(Reader(b))])
    {
      var m := boxes[b].openAcks[uuid];
      boxes := boxes[b := boxes[b].(openAcks := boxes[b].openAcks - {uuid})];
      hands := hands[Reader(b) := Finishing(m, status)];
      place := place[m := InHand(Reader(b))];
    }

    /** The status for the callback of the message an ack has found. */
    method SettleByKind(b: nat, uuid: Uuid, kind: AckKind)
      requires Bearerbox.Enabled(View(), Ack(b, uuid, kind)) && uuid in boxes[b].openAcks
      modifies this
      ensures View() == Bearerbox.Apply(old(View()), Ack(b, uuid, kind))
      ensures boxes == old(boxes)[b := old(boxes)[b].(openAcks := old(boxes)[b].openAcks - {uuid})]
      ensures Reader(b) in hands && hands == old(hands)[Reader(b) := hands[Reader(b)]] && log == old(log)
      ensures var hand := hands[Reader(b)];
              && hand.Finishing? && hand.m == old(boxes)[b].openAcks[uuid]
              && (hand.status == ESME_ROK <==> kind == AckBuffered || kind == AckSuccess)
              && (hand.status == ESME_RSUBMITFAIL <==> kind == AckFailed)
              && (hand.status == ESME_RSYSERR <==> kind == AckFailedTmp || kind == AckUnknown)
    {
      var fromRow := boxes[b].openAcks[uuid].origin.FromRow?;
      var status;
      match kind {
        case AckBuffered => status := ESME_ROK;
        case AckSuccess => status := ESME_ROK;
        case AckFailed => status := ESME_RSUBMITFAIL;
        case AckFailedTmp => status := ESME_RSYSERR;
        case AckUnknown => status := ESME_RSYSERR;
      }
      Settle(b, uuid, status);
      delivered := if status == ESME_ROK then delivered + {uuid} else delivered;
      refused := if status == ESME_RSUBMITFAIL && fromRow then refused + {uuid} else refused;
    }

    /** The reader of box `b` handles one ack. An unknown one changes nothing. A known one is answered by its kind,
        and a stored message keeps its row and claim exactly when it was refused for now or in an unknown way. */
    method HandleAck(b: nat, uuid: Uuid, kind: AckKind) returns (ghost trace: seq<Bearerbox.Event>)
      requires Bearerbox.Enabled(View(), Ack(b, uuid, kind))
      modifies this, db
      ensures uuid !in old(boxes)[b].openAcks ==> View() == old(View())
      ensures uuid in old(boxes)[b].openAcks ==>
                var m := old(boxes)[b].openAcks[uuid];
                && boxes == old(boxes)[b := old(boxes)[b].(openAcks := old(boxes)[b].openAcks - {uuid})]
                && hands == old(hands)
                && |log| == |old(log)| + 1 && log[..|old(log)|] == old(log) && log[|old(log)|].0 == m
                && (log[|old(log)|].1 == ESME_ROK <==> kind == AckBuffered || kind == AckSuccess)
                && (log[|old(log)|].1 == ESME_RSUBMITFAIL <==> kind == AckFailed)
                && (log[|old(log)|].1 == ESME_RSYSERR <==> kind == AckFailedTmp || kind == AckUnknown)
                && (m.origin.FromSubmit? || kind == AckFailedTmp || kind == AckUnknown ==> db.View() == old(db.View()))
                && (m.origin.FromRow? && (kind == AckBuffered || kind == AckSuccess || kind == AckFailed) ==>
                      RowGivenUp(m.origin.id, true))
      ensures trace == if uuid in old(boxes)[b].openAcks then [Ack(b, uuid, kind)] + [Callback(Reader(b))] else [Ack(b, uuid, kind)]
      ensures Bearerbox.Run(old(View()), trace, View())
    {
      ghost var before := View();
      trace := [Ack(b, uuid, kind)];
      assert Bearerbox.Run(before, trace, Bearerbox.Apply(before, trace[0]));
      if uuid in boxes[b].openAcks {
        SettleByKind(b, uuid, kind);
        ghost var mid := View();
        RunAppend(before, trace, mid, Callback(Reader(b)));
        RunCallback(Reader(b), true);
        trace := trace + [Callback(Reader(b))];
      }
    }

    /** One turn of the flush: the message leaves open_acks and its callback runs with a failure. */
    method FlushNext(b: nat, uuid: Uuid, ghost before: State, ghost trace: seq<Bearerbox.Event>)
      returns (ghost extended: seq<Bearerbox.Event>)
      requires Bearerbox.Enabled(View(), FlushOne(b, uuid)) && Bearerbox.Run(before, trace, View())
      modifies this, db
      ensures boxes == old(boxes)[b := old(boxes)[b].(openAcks := old(boxes)[b].openAcks - {uuid})]
      ensures hands == old(hands) && log == old(log) + [(old(boxes)[b].openAcks[uuid], ESME_RSYSERR)]
      ensures extended == trace + [FlushOne(b, uuid), Callback(Reader(b))]
      ensures Bearerbox.Run(before, extended, View())
    {
      ghost var start := View();
      Settle(b, uuid, ESME_RSYSERR);
      assert View() == Bearerbox.Apply(start, FlushOne(b, uuid));
      RunCallback(Reader(b), true);
      FlushTrace(before, trace, start, View(), b, uuid);
      extended := trace + [FlushOne(b, uuid), Callback(Reader(b))];
    }

    /** Before reconnecting, the reader fails every message still waiting for an ack. */
    method FlushOpenAcks(b: nat) returns (ghost trace: seq<Bearerbox.Event>)
      requires b < |boxes| && !boxes[b].alive && boxes[b].writing.None? && Reader(b) !in hands
      modifies this, db
      ensures boxes == old(boxes)[b := old(boxes)[b].(openAcks := map[])] && hands == old(hands)
      ensures forall u :: u in old(boxes)[b].openAcks ==> (old(boxes)[b].openAcks[u], ESME_RSYSERR) in log
      ensures |log| == |old(log)| + |old(boxes)[b].openAcks|
      ensures Bearerbox.Run(old(View()), trace, View())
    {
      ghost var before := View();
      var acks := boxes[b].openAcks;
      trace := [];
      while acks != map[]
        invariant boxes == before.boxes[b := before.boxes[b].(openAcks := acks)] && hands == before.hands
        invariant Bearerbox.Run(before, trace, View())
        invariant |log| + |acks| == |before.log| + |before.boxes[b].openAcks|
        invariant forall u :: u in acks ==> u in before.boxes[b].openAcks && acks[u] == before.boxes[b].openAcks[u]
        invariant forall u :: u in before.boxes[b].openAcks ==>
                    u in acks || (before.boxes[b].openAcks[u], ESME_RSYSERR) in log
        decreases |acks|
      {
        var uuid :| uuid in acks;
        trace := FlushNext(b, uuid, before, trace);
        acks := acks - {uuid};
      }
    }

    /** Reconnecting: the flush first, then `alive` says whether the new connection identified itself. */
    method Reconnect(b: nat, identified: bool) returns (ghost trace: seq<Bearerbox.Event>)
      requires b < |boxes| && !boxes[b].alive && boxes[b].writing.None? && Reader(b) !in hands
      modifies this, db
      ensures boxes == old(boxes)[b := Box(identified, map[], None)]
      ensures 0 < |trace| && trace[|trace| - 1] == Bearerbox.Event.Reconnect(b, identified)
      ensures Bearerbox.Run(old(View()), trace, View())
    {
      ghost var before := View();
      trace := FlushOpenAcks(b);
      ghost var flushed := View();
      boxes := boxes[b := boxes[b].(alive := identified)];
      assert View() == Bearerbox.Apply(flushed, Bearerbox.Event.Reconnect(b, identified));
      RunAppend(before, trace, flushed, Bearerbox.Event.Reconnect(b, identified));
      trace := trace + [Bearerbox.Event.Reconnect(b, identified)];
    }

    /** A read error, a failed heartbeat or a shutdown request from the bearerbox. */
    method Disconnect(b: nat)
      requires b < |boxes| && boxes[b].writing.None?
      modifies this
      ensures View() == Bearerbox.Apply(old(View()), Drop(b))
      ensures !boxes[b].alive && boxes[b].openAcks == old(boxes)[b].openAcks && hands == old(hands)
    {
      boxes := boxes[b := boxes[b].(alive := false)];
    }

    method QueueStored(id: Id, row: Row, ctx: nat, ghost before: State, ghost trace: seq<Bearerbox.Event>)
      returns (ghost extended: seq<Bearerbox.Event>)
      requires id in batch && row == batch[id]
      requires (forall m :: m in place ==> m.ctx < ctx) && Bearerbox.Run(before, trace, View())
      modifies this
      ensures batch == old(batch) - {id} && (forall m :: m in place ==> m.ctx < ctx + 1)
      ensures extended == trace + [Produce(id, Msg(ctx, row.uuid, row.service, FromRow(id)))]
      ensures queue == old(queue) + multiset{Msg(ctx, row.uuid, row.service, FromRow(id))}
      ensures Bearerbox.Run(before, extended, View())
    {
      ghost var start := View();
      var m := Msg(ctx, row.uuid, row.service, FromRow(id));
      batch := batch - {id};
      queue := queue + multiset{m};
      place := place[m := InQueue];
      assert View() == Bearerbox.Apply(start, Produce(id, m));
      RunAppend(before, trace, start, Produce(id, m));
      extended := trace + [Produce(id, m)];
    }

    method ClaimStored(selected: seq<Id>) returns (messages: seq<(Id, Row)>)
      requires Bearerbox.Enabled(View(), FetchStored(selected)) && SqlStore.Valid(db.View())
      modifies this, db
      ensures Bearerbox.Run(old(View()), [FetchStored(selected)], View())
      ensures place == old(place) && |messages| == |selected|
      ensures forall i :: 0 <= i < |selected| ==> messages[i].0 == selected[i] && messages[i].1.smsType == MtPush
      ensures batch == Batch(messages)
    {
      ghost var before := View();
      DrainReadsWhatParkWrites(db.tables);
      var table;
      table, messages := db.GetStored(MtPush, "", BearerboxMtDrainKind, selected);
      batch := Batch(messages);
      BatchIsFetched(before, selected, messages);
      assert View() == Bearerbox.Apply(before, FetchStored(selected));
    }

    /** The consuming loop of the requeue thread over its list of claimed messages. It would delete a row
        of another type; the SELECT returns none. */
    method QueueAll(messages: seq<(Id, Row)>, firstCtx: nat) returns (ghost produced: seq<Bearerbox.Event>)
      requires batch == Batch(messages) && Distinct(messages)
      requires forall j :: 0 <= j < |messages| ==> messages[j].1.smsType == MtPush
      requires forall m :: m in place ==> m.ctx < firstCtx
      modifies this
      ensures batch == map[] && |produced| == |messages|
      ensures Bearerbox.Run(old(View()), produced, View())
      ensures forall j :: 0 <= j < |messages| ==> produced[j].Produce? && produced[j].id == messages[j].0
    {
      ghost var claimed := View();
      produced := [];
      var i := 0;
      assert messages[0..] == messages;
      while i < |messages|
        invariant 0 <= i <= |messages|
        invariant batch == Batch(messages[i..])
        invariant forall m :: m in place ==> m.ctx < firstCtx + i
        invariant Bearerbox.Run(claimed, produced, View()) && |produced| == i
        invariant forall j :: 0 <= j < i ==> produced[j].Produce? && produced[j].id == messages[j].0
        modifies this
      {
        var (id, row) := messages[i];
        BatchShrinks(messages, i);
        if row.smsType == MtPush {
          produced := QueueStored(id, row, firstCtx + i, claimed, produced);
        } else {
          assert false;
        }
        i := i + 1;
      }
      assert messages[i..] == [];
    }

    /** What the requeue thread does when it drains: claims what the database selects and queues every
        claimed message. */
    method DrainStored(selected: seq<Id>, firstCtx: nat) returns (ghost produced: seq<Bearerbox.Event>)
      requires Bearerbox.Enabled(View(), FetchStored(selected)) && SqlStore.Valid(db.View())
      requires forall m :: m in place ==> m.ctx < firstCtx
      modifies this, db
      ensures batch == map[] && |produced| == |selected|
      ensures Bearerbox.Run(old(View()), [FetchStored(selected)] + produced, View())
      ensures forall j :: 0 <= j < |selected| ==> produced[j].Produce? && produced[j].id == selected[j]
    {
      ghost var before := View();
      var messages := ClaimStored(selected);
      ghost var claimed := View();
      assert Distinct(messages);
      produced := QueueAll(messages, firstCtx);
      RunConcat(before, [FetchStored(selected)], claimed, produced, View());
    }

    /** The MT half of a round of the requeue thread: nothing without an online bearerbox, nor when the store
        is primary and queueing is not enabled; else every selected row is claimed and queued, in order. */
    method RequeueStored(selected: seq<Id>, firstCtx: nat) returns (online: bool, ghost produced: seq<Bearerbox.Event>)
      requires Bearerbox.Enabled(View(), FetchStored(selected)) && SqlStore.Valid(db.View())
      requires forall m :: m in place ==> m.ctx < firstCtx
      modifies this, db
      ensures online <==> exists b :: 0 <= b < |old(boxes)| && old(boxes)[b].alive
      ensures var drains := online && (!db.tables.storePrimary || enableQueue);
              && batch == map[] && |produced| == (if drains then |selected| else 0)
              && Bearerbox.Run(old(View()), (if drains then [FetchStored(selected)] else []) + produced, View())
              && forall j :: 0 <= j < |produced| ==> produced[j].Produce? && produced[j].id == selected[j]
    {
      produced := [];
      online := SearchOnline();
      if online {
        if !db.tables.storePrimary || enableQueue {
          produced := DrainStored(selected, firstCtx);
        }
      }
    }
  }

  /** What AddToQueue does: one offer and, unless it queued the message, the callback. */
  ghost predicate Offers(trace: seq<Bearerbox.Event>, t: Thread) {
    0 < |trace| <= 2 && trace[0].Offer? && trace[0].t == t && (trace[0].online <==> |trace| == 1)
    && (|trace| == 2 ==> trace[1] == Callback(t))
  }

  lemma {:induction false} RunConcat(s: State, first: seq<Bearerbox.Event>, mid: State, rest: seq<Bearerbox.Event>, t: State)
    requires Bearerbox.Run(s, first, mid) && Bearerbox.Run(mid, rest, t)
    ensures Bearerbox.Run(s, first + rest, t)
    decreases |first|
  {
    if first == [] {
      assert first + rest == rest;
    } else {
      RunConcat(Bearerbox.Apply(s, first[0]), first[1..], mid, rest, t);
      assert (first + rest)[1..] == first[1..] + rest;
    }
  }
}
