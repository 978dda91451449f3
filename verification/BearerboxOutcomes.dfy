/** What one message gets out of the bearerbox protocol: the answer, the row and the claim that each
    outcome leaves behind. */
module BearerboxOutcomes {
  import opened Common
  import opened SqlStore
  import opened Bearerbox
  import opened BearerboxSafety

  /** The state after an ack that finds its message and the callback it leads to. */
  ghost function Acked(s: State, b: nat, uuid: Uuid, kind: AckKind): State
    requires Bearerbox.Enabled(s, Ack(b, uuid, kind)) && uuid in s.boxes[b].openAcks
  {
    Bearerbox.Apply(Bearerbox.Apply(s, Ack(b, uuid, kind)), Callback(Reader(b)))
  }

  /** An ack takes the message it finds out of open_acks and answers it by its kind: 0 exactly if the bearerbox has
      buffered or sent it, the permanent refusal exactly if it failed, a system error for every other kind. */
  lemma AckAnswers(s: State, b: nat, uuid: Uuid, kind: AckKind)
    requires Bearerbox.Enabled(s, Ack(b, uuid, kind)) && uuid in s.boxes[b].openAcks
    ensures var m, t := s.boxes[b].openAcks[uuid], Acked(s, b, uuid, kind);
            && |t.log| == |s.log| + 1 && t.log[..|s.log|] == s.log && t.log[|s.log|].0 == m
            && (t.log[|s.log|].1 == ESME_ROK <==> kind == AckBuffered || kind == AckSuccess)
            && (t.log[|s.log|].1 == ESME_RSUBMITFAIL <==> kind == AckFailed)
            && (t.log[|s.log|].1 == ESME_RSYSERR <==> kind == AckFailedTmp || kind == AckUnknown)
            && t.accepted == (if m.origin.FromSubmit? && (kind == AckBuffered || kind == AckSuccess)
                              then s.accepted + {m.uuid} else s.accepted)
            && t.boxes == s.boxes[b := s.boxes[b].(openAcks := s.boxes[b].openAcks - {uuid})]
            && t.hands == s.hands && t.queue == s.queue && t.batch == s.batch
  {
    var m, t := s.boxes[b].openAcks[uuid], Acked(s, b, uuid, kind);
    assert t.log == s.log + [(m, AckStatus(kind))];
  }

  /** And its row: the callback of a submit touches no row; that of a requeue deletes exactly its own row, and ends
      its claim, unless the message was refused for now. If its own row was deleted by somebody else it deletes the
      row of that number in the table the claim names, or in the primary table. */
  lemma AckReleases(s: State, b: nat, uuid: Uuid, kind: AckKind)
    requires Inv(s) && Bearerbox.Enabled(s, Ack(b, uuid, kind)) && uuid in s.boxes[b].openAcks
    ensures var m, t := s.boxes[b].openAcks[uuid], Acked(s, b, uuid, kind);
            if m.origin.FromSubmit? || kind == AckFailedTmp || kind == AckUnknown then t.store == s.store
            else if Parked(s, m.origin.id) then
              && t.store.rows == s.store.rows - {(s.table, m.origin.id)}
              && t.store.claims == s.store.claims - {(s.table, m.origin.id)}
            else
              var named := s.store.pendingStore;
              t.store.rows == s.store.rows - {(if m.origin.id in named then named[m.origin.id] else s.store.primary, m.origin.id)}
  {
    var m := s.boxes[b].openAcks[uuid];
    assert Holds(s, m, InAcks(b)) && Live(s, m);
    var t := Acked(s, b, uuid, kind);
    assert t.store == AfterCallback(s.store, m, AckStatus(kind));
  }

  /** A flushed message is answered with the temporary failure, and its row and claim stay. */
  lemma FlushAnswers(s: State, b: nat, uuid: Uuid)
    requires Bearerbox.Enabled(s, FlushOne(b, uuid))
    ensures var f := Bearerbox.Apply(s, FlushOne(b, uuid));
            Bearerbox.Enabled(f, Callback(Reader(b))) &&
            var t := Bearerbox.Apply(f, Callback(Reader(b)));
            && t.log == s.log + [(s.boxes[b].openAcks[uuid], ESME_RSYSERR)]
            && t.store == s.store && t.accepted == s.accepted && t.refused == s.refused && t.delivered == s.delivered
            && t.boxes == s.boxes[b := s.boxes[b].(openAcks := s.boxes[b].openAcks - {uuid})]
  {
    var f := Bearerbox.Apply(s, FlushOne(b, uuid));
    assert f.hands[Reader(b)] == Finishing(s.boxes[b].openAcks[uuid], ESME_RSYSERR);
  }

  // ------------------------------------------------------------------ parked and back

  /** With no bearerbox online a message is answered 0 exactly if it could be parked, and its row then says all
      that is needed to send it again; otherwise it is answered with the temporary failure and no row changes. A
      message from the store gives up its old row for the new one. */
  lemma OfferAnswers(s: State, t: Thread, parked: Option<Id>)
    requires Inv(s) && Bearerbox.Enabled(s, Offer(t, false, parked))
    ensures var o := Bearerbox.Apply(s, Offer(t, false, parked));
            Bearerbox.Enabled(o, Callback(t)) &&
            var m, u := s.hands[t].m, Bearerbox.Apply(o, Callback(t));
            && u.log == s.log + [(m, if parked.Some? then ESME_ROK else ESME_RSYSERR)]
            && (parked.None? ==> u.store == s.store)
            && (parked.Some? ==> (s.table, parked.value) in u.store.rows
                                 && u.store.rows[(s.table, parked.value)] == Row(MtPush, m.service, m.uuid))
            && (parked.Some? && m.origin.FromSubmit? ==>
                  u.store.rows.Keys == s.store.rows.Keys + {(s.table, parked.value)} && m.uuid in u.accepted)
            && (parked.Some? && m.origin.FromRow? && Parked(s, m.origin.id) ==>
                  u.store.rows.Keys == s.store.rows.Keys - {(s.table, m.origin.id)} + {(s.table, parked.value)})
  {
    var m := s.hands[t].m;
    assert Holds(s, m, InHand(t)) && Live(s, m);
    var o := Bearerbox.Apply(s, Offer(t, false, parked));
    assert o.hands[t] == Finishing(m, if parked.Some? then ESME_ROK else ESME_RSYSERR);
    if parked.Some? { ParkedStays(s, m, parked.value); }
  }

  /** Releasing the old row of a message leaves the row it was parked under. */
  lemma ParkedStays(s: State, m: Msg, id: Id)
    requires RowsAgree(s) && Live(s, m) && (s.table, id) !in s.store.used
    ensures var p := Insert(s.store, s.table, id, Row(MtPush, m.service, m.uuid));
            var u := AfterCallback(p, m, ESME_ROK);
            && (s.table, id) in u.rows && u.rows[(s.table, id)] == Row(MtPush, m.service, m.uuid)
            && (m.origin.FromSubmit? ==> u == p)
            && (m.origin.FromRow? && Parked(s, m.origin.id) ==> u.rows.Keys == p.rows.Keys - {(s.table, m.origin.id)})
  {
    if m.origin.FromRow? {
      var row := m.origin.id;
      assert row in s.store.pendingStore ==> (s.store.pendingStore[row], row) in s.store.claims;
    }
  }

  /** No step writes to a row that exists; a number once used comes back with its own row or not at all. */
  lemma {:induction false} RowsAreNotRewritten(s: State, events: seq<Bearerbox.Event>, t: State, k: Key)
    requires Bearerbox.Run(s, events, t) && k in s.store.used
    ensures k in t.store.used && (k in t.store.rows ==> k in s.store.rows && t.store.rows[k] == s.store.rows[k])
    ensures t.table == s.table
    decreases |events|
  {
    if events != [] {
      RowIsNotRewritten(s, events[0], k);
      RowsAreNotRewritten(Bearerbox.Apply(s, events[0]), events[1..], t, k);
    }
  }

  lemma RowIsNotRewritten(s: State, e: Bearerbox.Event, k: Key)
    requires Bearerbox.Enabled(s, e) && k in s.store.used
    ensures var t := Bearerbox.Apply(s, e);
            && t.table == s.table && k in t.store.used
            && (k in t.store.rows ==> k in s.store.rows && t.store.rows[k] == s.store.rows[k])
  {
  }

  /** Whatever happens after a message was parked: if the requeue thread fetches its row and produces a message
      from it, that message has the service and the uuid of the one that was parked. */
  lemma ParkedComesBack(s: State, t: Thread, id: Id, events: seq<Bearerbox.Event>, u: State, ids: seq<Id>, back: Msg)
    requires Bearerbox.Enabled(s, Offer(t, false, Some(id)))
    requires Bearerbox.Run(Bearerbox.Apply(s, Offer(t, false, Some(id))), events, u)
    requires Bearerbox.Enabled(u, FetchStored(ids)) && id in ids
    requires Bearerbox.Enabled(Bearerbox.Apply(u, FetchStored(ids)), Produce(id, back))
    ensures back.uuid == s.hands[t].m.uuid && back.service == s.hands[t].m.service && back.origin == FromRow(id)
  {
    var o := Bearerbox.Apply(s, Offer(t, false, Some(id)));
    assert o.store.rows[(s.table, id)] == Row(MtPush, s.hands[t].m.service, s.hands[t].m.uuid);
    RowsAreNotRewritten(o, events, u, (s.table, id));
    assert Bearerbox.Apply(u, FetchStored(ids)).batch[id] == u.store.rows[(u.table, id)];
  }
}
