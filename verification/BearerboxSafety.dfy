/** What every step of the outbound MT protocol keeps, and the theorems over whole runs. */
module BearerboxSafety {
  import opened Common
  import opened SqlStore
  import opened Bearerbox

  // ------------------------------------------------------------------ places

  /** `s'` differs from `s` only in where `m` is, and `m` is now at `p` alone. */
  ghost predicate Moved(s: State, s': State, m: Msg, p: Place) {
    && s'.place == s.place[m := p]
    && Holds(s', m, p) && (m in s.place && s.place[m] != p ==> !Holds(s', m, s.place[m]))
    && (forall q :: q != p && Holds(s', m, q) ==> Holds(s, m, q))
    && (forall o, q :: o != m ==> (Holds(s', o, q) <==> Holds(s, o, q)))
  }

  lemma MovedKeepsPlaces(s: State, s': State, m: Msg, p: Place)
    requires PlacesAgree(s) && Moved(s, s', m, p)
    ensures PlacesAgree(s')
  {
  }

  ghost predicate Placed(s: State) { PlacesAgree(s) && NoDuplicates(s) && WritersAgree(s) }

  lemma SubmitPlaces(s: State, n: nat, m: Msg)
    requires Placed(s) && Bearerbox.Enabled(s, Submit(n, m))
    ensures Placed(Bearerbox.Apply(s, Submit(n, m)))
  {
    var s' := Bearerbox.Apply(s, Submit(n, m));
    assert Moved(s, s', m, InHand(Submitter(n)));
  }
  lemma OfferPlaces(s: State, t: Thread, online: bool, parked: Option<Id>)
    requires Placed(s) && Bearerbox.Enabled(s, Offer(t, online, parked))
    ensures Placed(Bearerbox.Apply(s, Offer(t, online, parked)))
  {
    var s' := Bearerbox.Apply(s, Offer(t, online, parked));
    assert Holds(s, s.hands[t].m, InHand(t)) && !Holds(s, s.hands[t].m, InQueue);
    assert Moved(s, s', s.hands[t].m, if online then InQueue else InHand(t));
  }
  lemma TakePlaces(s: State, b: nat, m: Msg)
    requires Placed(s) && Bearerbox.Enabled(s, Take(b, m))
    ensures Placed(Bearerbox.Apply(s, Take(b, m)))
  {
    var s' := Bearerbox.Apply(s, Take(b, m));
    assert Holds(s, m, InQueue);
    assert Moved(s, s', m, InHand(Writer(b)));
  }
  lemma RegisterPlaces(s: State, b: nat, ok: bool)
    requires Placed(s) && Bearerbox.Enabled(s, Register(b, ok))
    requires s.hands[Writer(b)].m.uuid !in s.boxes[b].openAcks
    ensures Placed(Bearerbox.Apply(s, Register(b, ok)))
  {
    var s', m := Bearerbox.Apply(s, Register(b, ok)), s.hands[Writer(b)].m;
    assert Holds(s, m, InHand(Writer(b)));
    RegisterMoves(s, b, ok);
    MovedKeepsPlaces(s, s', m, InAcks(b));
  }

  lemma RegisterMoves(s: State, b: nat, ok: bool)
    requires Placed(s) && Bearerbox.Enabled(s, Register(b, ok))
    requires s.hands[Writer(b)].m.uuid !in s.boxes[b].openAcks
    ensures Moved(s, Bearerbox.Apply(s, Register(b, ok)), s.hands[Writer(b)].m, InAcks(b))
  {
    assert Holds(s, s.hands[Writer(b)].m, InHand(Writer(b)));
  }

  lemma WriteDonePlaces(s: State, b: nat)
    requires Placed(s) && Bearerbox.Enabled(s, WriteDone(b))
    ensures Placed(Bearerbox.Apply(s, WriteDone(b)))
  {
    if s.boxes[b].writing.value.ok {
      var s' := Bearerbox.Apply(s, WriteDone(b));
      assert forall o, q :: Holds(s', o, q) <==> Holds(s, o, q);
    } else {
      WriteFailedPlaces(s, b);
    }
  }

  lemma WriteFailedMoves(s: State, b: nat)
    requires Placed(s) && Bearerbox.Enabled(s, WriteDone(b)) && !s.boxes[b].writing.value.ok
    ensures Moved(s, Bearerbox.Apply(s, WriteDone(b)), s.boxes[b].writing.value.m, InHand(Writer(b)))
  {
    assert Holds(s, s.boxes[b].writing.value.m, InAcks(b));
  }

  lemma WriteFailedPlaces(s: State, b: nat)
    requires Placed(s) && Bearerbox.Enabled(s, WriteDone(b)) && !s.boxes[b].writing.value.ok
    ensures Placed(Bearerbox.Apply(s, WriteDone(b)))
  {
    var s', m := Bearerbox.Apply(s, WriteDone(b)), s.boxes[b].writing.value.m;
    assert Holds(s, m, InAcks(b));
    WriteFailedMoves(s, b);
    MovedKeepsPlaces(s, s', m, InHand(Writer(b)));
    assert NoDuplicates(s');
    assert forall o, c :: o != m ==> (Holds(s', o, InAcks(c)) <==> Holds(s, o, InAcks(c)));
  }

  /** A reader takes a message out of open_acks, for an ack or in the flush. */
  lemma LeaveAcksPlaces(s: State, s': State, b: nat, uuid: Uuid, status: int)
    requires Placed(s) && b < |s.boxes| && uuid in s.boxes[b].openAcks && Reader(b) !in s.hands
    requires var w := s.boxes[b].writing; w.Some? && !w.value.ok ==> w.value.m.uuid != uuid
    requires var m, box := s.boxes[b].openAcks[uuid], s.boxes[b];
             && s'.boxes == s.boxes[b := box.(openAcks := box.openAcks - {uuid})]
             && s'.hands == s.hands[Reader(b) := Finishing(m, status)]
             && s'.place == s.place[m := InHand(Reader(b))]
    requires s'.queue == s.queue && s'.log == s.log
    ensures Placed(s')
  {
    var m := s.boxes[b].openAcks[uuid];
    assert Holds(s, m, InAcks(b));
    assert Moved(s, s', m, InHand(Reader(b)));
    MovedKeepsPlaces(s, s', m, InHand(Reader(b)));
  }

  lemma CallbackPlaces(s: State, t: Thread)
    requires Placed(s) && Bearerbox.Enabled(s, Callback(t))
    ensures Placed(Bearerbox.Apply(s, Callback(t)))
  {
    var Finishing(m, status) := s.hands[t];
    assert Holds(s, m, InHand(t));
    CallbackMoves(s, t);
    MovedKeepsPlaces(s, Bearerbox.Apply(s, Callback(t)), m, Completed(status));
    forall i | 0 <= i < |s.log| ensures s.log[i].0 != m {
      assert Holds(s, s.log[i].0, Completed(s.log[i].1));
    }
  }

  lemma CallbackMoves(s: State, t: Thread)
    requires Placed(s) && Bearerbox.Enabled(s, Callback(t))
    ensures Moved(s, Bearerbox.Apply(s, Callback(t)), s.hands[t].m, Completed(s.hands[t].status))
  {
    assert Holds(s, s.hands[t].m, InHand(t));
  }

  lemma ProducePlaces(s: State, id: Id, m: Msg)
    requires Placed(s) && Bearerbox.Enabled(s, Produce(id, m))
    ensures Placed(Bearerbox.Apply(s, Produce(id, m)))
  {
    assert !Holds(s, m, InQueue);
    assert Moved(s, Bearerbox.Apply(s, Produce(id, m)), m, InQueue);
  }

  /** The steps that only touch `alive`, the batch or the store leave every place as it was. */
  lemma SamePlaces(s: State, s': State)
    requires Placed(s) && s'.queue == s.queue && s'.hands == s.hands && s'.log == s.log && s'.place == s.place
    requires |s'.boxes| == |s.boxes|
    requires forall b :: 0 <= b < |s.boxes| ==> s'.boxes[b].openAcks == s.boxes[b].openAcks && s'.boxes[b].writing == s.boxes[b].writing
    ensures Placed(s')
  {
    assert forall o, q :: Holds(s', o, q) <==> Holds(s, o, q);
  }

  // ------------------------------------------------------------------ rows, uuids, accounts

  ghost predicate Sound(s: State) { RowsAgree(s) && UuidsUnique(s) }

  /** Nothing that was accounted for ceases to be, and what is newly owed is accounted for. */
  ghost predicate KeepsAccounts(s: State, s': State) {
    && (forall u :: AccountedFor(s, u) ==> AccountedFor(s', u))
    && (forall u :: Owed(s', u) ==> Owed(s, u) || AccountedFor(s', u))
  }

  ghost predicate PlacedStep(s: State, e: Bearerbox.Event) {
    Bearerbox.Enabled(s, e) && Placed(s) && Placed(Bearerbox.Apply(s, e))
  }

  ghost predicate SameStore(s: State, s': State) {
    && s'.table == s.table && s'.store == s.store && s'.batch == s.batch && s'.accepted == s.accepted
    && s'.delivered == s.delivered && s'.refused == s.refused
  }

  ghost predicate SameCallbacks(s: State, s': State) {
    && (forall t :: t in s'.hands && s'.hands[t].Finishing? <==> t in s.hands && s.hands[t].Finishing?)
    && (forall t :: t in s.hands && s.hands[t].Finishing? ==> s.hands[t] == s'.hands[t])
  }

  /** Uniqueness only gets easier when fewer messages are active and fewer rows are kept. */
  lemma FewerStayUnique(s: State, s': State)
    requires UuidsUnique(s) && s'.table == s.table && s'.store == s.store && s'.batch == s.batch
    requires forall m :: Active(s', m) ==> Active(s, m)
    requires forall id :: Doomed(s, id) ==> Doomed(s', id)
    ensures UuidsUnique(s')
  {
    assert forall id :: Parked(s', id) <==> Parked(s, id);
    assert forall id :: Claimed(s', id) <==> Claimed(s, id);
    assert forall id :: Kept(s', id) ==> Kept(s, id);
  }

  lemma SameStatusKeeps(s: State, s': State)
    requires Sound(s) && SameStore(s, s') && SameCallbacks(s, s')
    requires forall m :: Live(s', m) <==> Live(s, m)
    requires forall m :: Active(s', m) <==> Active(s, m)
    ensures Sound(s') && KeepsAccounts(s, s')
  {
    assert forall id :: Doomed(s', id) <==> Doomed(s, id);
    FewerStayUnique(s, s');
    SameRowsKeep(s, s');
    assert forall u :: Owed(s', u) ==> Owed(s, u);
  }

  /** The accounts depend on the rows that stay and on the outcomes. */
  lemma SameRowsKeep(s: State, s': State)
    requires s'.table == s.table && s'.delivered == s.delivered && s'.refused == s.refused
    requires forall i :: Kept(s, i) ==> Kept(s', i) && UuidOf(s', i) == UuidOf(s, i)
    ensures forall u :: AccountedFor(s, u) ==> AccountedFor(s', u)
  {
    forall u | AccountedFor(s, u) ensures AccountedFor(s', u) {
      if u !in s.delivered && u !in s.refused {
        var i :| Kept(s, i) && UuidOf(s, i) == u;
        assert Kept(s', i) && UuidOf(s', i) == u;
      }
    }
  }

  /** A step that passes an active message on keeps the rest. */
  lemma StillActive(s: State, s': State, m: Msg, p: Place)
    requires PlacesAgree(s) && PlacesAgree(s') && Sound(s) && SameStore(s, s') && SameCallbacks(s, s')
    requires s'.place == s.place[m := p] && Active(s, m) && Active(s', m)
    ensures Sound(s') && KeepsAccounts(s, s')
  {
    forall o ensures Live(s', o) <==> Live(s, o) {}
    forall o ensures Active(s', o) <==> Active(s, o) {
      if o != m && Live(s, o) {
        assert Holds(s, o, s.place[o]) && Holds(s', o, s.place[o]);
      }
    }
    SameStatusKeeps(s, s');
  }

  /** An active message's callback is settled without a new row: by an ack, the flush or a
      rejection. Nothing an accepted uuid rests on goes away unless the uuid was delivered or refused. */
  ghost predicate Settles(s: State, s': State, m: Msg, t: Thread, status: int) {
    && Active(s, m) && (t in s.hands ==> s.hands[t].m == m)
    && s'.place == s.place[m := InHand(t)] && s'.hands == s.hands[t := Finishing(m, status)]
    && s'.table == s.table && s'.store == s.store && s'.batch == s.batch && s'.accepted == s.accepted
    && s.delivered <= s'.delivered && s.refused <= s'.refused
    && (status == ESME_ROK ==> m.uuid in s'.delivered)
    && (status == ESME_RSUBMITFAIL && m.origin.FromRow? ==> m.uuid in s'.refused)
  }

  lemma SettledStatus(s: State, s': State, m: Msg, t: Thread, status: int)
    requires PlacesAgree(s) && PlacesAgree(s') && Settles(s, s', m, t, status)
    ensures forall o :: Live(s', o) <==> Live(s, o)
    ensures forall o :: Active(s', o) ==> Active(s, o)
    ensures forall id :: Doomed(s, id) ==> Doomed(s', id)
    ensures forall id :: Doomed(s', id) && !Doomed(s, id) ==> m.origin == FromRow(id) && IsFinal(status)
  {
    forall o | Active(s', o) ensures Active(s, o) {
      if o != m { assert Holds(s, o, s.place[o]) && Holds(s', o, s.place[o]); }
    }
    forall id | Doomed(s, id) ensures Doomed(s', id) {
      var d :| d in s.hands && s.hands[d].Finishing? && s.hands[d].m.origin == FromRow(id) && IsFinal(s.hands[d].status);
      assert Holds(s, s.hands[d].m, InHand(d));
      assert d in s'.hands && s'.hands[d] == s.hands[d];
    }
  }

  lemma SettledAccounts(s: State, s': State, m: Msg, t: Thread, status: int)
    requires PlacesAgree(s) && PlacesAgree(s') && RowsAgree(s) && Settles(s, s', m, t, status)
    ensures KeepsAccounts(s, s')
  {
    SettledStatus(s, s', m, t, status);
    forall u | AccountedFor(s, u) ensures AccountedFor(s', u) {
      if u !in s.delivered && u !in s.refused {
        var id :| Kept(s, id) && UuidOf(s, id) == u;
        if Doomed(s', id) {
          assert m.uuid == u && IsFinal(status);
        } else {
          assert Kept(s', id) && UuidOf(s', id) == u;
        }
      }
    }
    forall u | Owed(s', u) && !Owed(s, u) ensures u in s'.delivered {
      var d :| d in s'.hands && s'.hands[d].Finishing? && s'.hands[d].status == ESME_ROK && s'.hands[d].m.uuid == u;
      assert d == t;
    }
  }

  lemma SettleKeeps(s: State, s': State, m: Msg, t: Thread, status: int)
    requires PlacesAgree(s) && PlacesAgree(s') && Sound(s) && Settles(s, s', m, t, status)
    ensures Sound(s') && KeepsAccounts(s, s')
  {
    SettledStatus(s, s', m, t, status);
    SettledAccounts(s, s', m, t, status);
    FewerStayUnique(s, s');
  }

  // ------------------------------------------------------------------ parking, callbacks, new work

  /** The row of a message whose callback is about to run is claimed by it, or deleted already. */
  lemma DoomedIsClaimed(s: State, id: Id)
    requires PlacesAgree(s) && RowsAgree(s) && Doomed(s, id)
    ensures id !in s.batch && (Gone(s, id) || Claimed(s, id)) && (s.table, id) in s.store.used
  {
    var d :| d in s.hands && s.hands[d].Finishing? && s.hands[d].m.origin == FromRow(id) && IsFinal(s.hands[d].status);
    assert Holds(s, s.hands[d].m, InHand(d));
    assert Live(s, s.hands[d].m);
  }

  lemma ParkStatus(s: State, t: Thread, id: Id)
    requires PlacedStep(s, Offer(t, false, Some(id))) && RowsAgree(s)
    ensures var s', m := Bearerbox.Apply(s, Offer(t, false, Some(id))), s.hands[t].m;
            && Active(s, m)
            && (forall o :: Live(s', o) <==> Live(s, o))
            && (forall o :: Active(s', o) <==> Active(s, o) && o != m)
            && (forall i :: Kept(s', i) <==> i == id || (Kept(s, i) && m.origin != FromRow(i)))
  {
    var s', m := Bearerbox.Apply(s, Offer(t, false, Some(id))), s.hands[t].m;
    assert Holds(s, m, InHand(t));
    forall o ensures Active(s', o) <==> Active(s, o) && o != m {
      if o != m && Live(s, o) { assert Holds(s, o, s.place[o]) && Holds(s', o, s.place[o]); }
    }
    forall i | m.origin == FromRow(i) ensures Doomed(s', i) && i != id {
      assert t in s'.hands && s'.hands[t] == Finishing(m, ESME_ROK);
    }
    forall i | m.origin != FromRow(i) ensures Doomed(s', i) <==> Doomed(s, i) {
      if Doomed(s, i) {
        var d :| d in s.hands && s.hands[d].Finishing? && s.hands[d].m.origin == FromRow(i) && IsFinal(s.hands[d].status);
        assert d in s'.hands && s'.hands[d] == s.hands[d];
      }
    }
    if Doomed(s, id) { DoomedIsClaimed(s, id); }
  }

  lemma ParkRows(s: State, t: Thread, id: Id)
    requires PlacedStep(s, Offer(t, false, Some(id))) && RowsAgree(s)
    ensures var s' := Bearerbox.Apply(s, Offer(t, false, Some(id)));
            (forall o :: Live(s', o) <==> Live(s, o)) ==> RowsAgree(s')
  {
    var s' := Bearerbox.Apply(s, Offer(t, false, Some(id)));
    assert forall i :: Parked(s', i) <==> Parked(s, i) || i == id;
    assert forall i :: Claimed(s', i) <==> Claimed(s, i);
    assert !Claimed(s, id) && !Gone(s, id) && !Parked(s, id);
    assert forall i :: Gone(s, i) ==> Gone(s', i);
  }

  lemma ParkKeeps(s: State, t: Thread, id: Id)
    requires PlacedStep(s, Offer(t, false, Some(id))) && Sound(s)
    ensures var s' := Bearerbox.Apply(s, Offer(t, false, Some(id))); Sound(s') && KeepsAccounts(s, s')
  {
    ParkStatus(s, t, id);
    ParkRows(s, t, id);
    ParkUnique(s, t, id);
    ParkAccounts(s, t, id);
  }

  /** `id` takes over the uuid of `m`: no other active message and no other kept row has it. */
  lemma NewRowStaysUnique(s: State, s': State, m: Msg, id: Id)
    requires UuidsUnique(s) && Active(s, m) && !Parked(s, id) && Parked(s', id) && UuidOf(s', id) == m.uuid
    requires s'.batch == s.batch
    requires forall o :: Active(s', o) <==> Active(s, o) && o != m
    requires forall i :: Kept(s', i) <==> i == id || (Kept(s, i) && m.origin != FromRow(i))
    requires forall i :: Parked(s, i) && i != id ==> Parked(s', i) && UuidOf(s', i) == UuidOf(s, i)
    ensures UuidsUnique(s')
  {
    forall i | Kept(s', i) && i != id ensures UuidOf(s', i) != m.uuid {
      assert Kept(s, i) && Parked(s, i);
    }
  }

  lemma ParkUnique(s: State, t: Thread, id: Id)
    requires PlacedStep(s, Offer(t, false, Some(id))) && Sound(s)
    ensures UuidsUnique(Bearerbox.Apply(s, Offer(t, false, Some(id))))
  {
    ParkStatus(s, t, id);
    NewRowStaysUnique(s, Bearerbox.Apply(s, Offer(t, false, Some(id))), s.hands[t].m, id);
  }

  lemma ParkAccounts(s: State, t: Thread, id: Id)
    requires PlacedStep(s, Offer(t, false, Some(id))) && Sound(s)
    ensures KeepsAccounts(s, Bearerbox.Apply(s, Offer(t, false, Some(id))))
  {
    var s', m := Bearerbox.Apply(s, Offer(t, false, Some(id))), s.hands[t].m;
    ParkStatus(s, t, id);
    assert Kept(s', id) && UuidOf(s', id) == m.uuid;
    forall u | AccountedFor(s, u) ensures AccountedFor(s', u) {
      if u !in s.delivered && u !in s.refused {
        var i :| Kept(s, i) && UuidOf(s, i) == u;
        if m.origin != FromRow(i) { assert Kept(s', i) && UuidOf(s', i) == u; } else { assert Live(s, m) && m.uuid == u; }
      }
    }
    forall u | Owed(s', u) && !Owed(s, u) ensures u == m.uuid {
      var d :| d in s'.hands && s'.hands[d].Finishing? && s'.hands[d].status == ESME_ROK && s'.hands[d].m.uuid == u;
      assert d == t;
    }
  }

  /** A final release under the number of a row that is claimed or gone: of this table it deletes that row at
      most, and ends that claim at most. */
  lemma ReleaseSpares(store: Store, table: string, id: Id)
    requires SqlStore.Valid(store) && ((table, id) in store.claims || (table, id) !in store.rows)
    ensures var r := Remove(store, id, false);
            && SqlStore.Valid(r) && r.used == store.used && (table, id) !in r.rows && (table, id) !in r.claims
            && (forall i :: i != id ==> ((table, i) in r.rows <==> (table, i) in store.rows))
            && (forall i :: (table, i) in r.rows ==> r.rows[(table, i)] == store.rows[(table, i)])
            && (forall i :: i != id ==> ((table, i) in r.claims <==> (table, i) in store.claims))
  {
    RemoveKeepsValid(store, id, false);
  }

  lemma CallbackRows(s: State, t: Thread)
    requires PlacedStep(s, Callback(t)) && RowsAgree(s)
    ensures var s', m, status := Bearerbox.Apply(s, Callback(t)), s.hands[t].m, s.hands[t].status;
            var mine := m.origin.FromRow? && IsFinal(status);
            && SqlStore.Valid(s'.store)
            && (forall i :: !(mine && m.origin.id == i) ==>
                  (Parked(s', i) <==> Parked(s, i)) && (Claimed(s', i) <==> Claimed(s, i)) && (Gone(s', i) <==> Gone(s, i)))
            && (forall i :: Parked(s', i) ==> Parked(s, i) && UuidOf(s', i) == UuidOf(s, i))
            && (mine ==> !Parked(s', m.origin.id))
  {
    var m := s.hands[t].m;
    assert Holds(s, m, InHand(t)) && Live(s, m);
    if m.origin.FromRow? && IsFinal(s.hands[t].status) {
      ReleaseSpares(s.store, s.table, m.origin.id);
    }
  }

  lemma CallbackStatus(s: State, t: Thread)
    requires PlacedStep(s, Callback(t)) && RowsAgree(s)
    ensures var s', m := Bearerbox.Apply(s, Callback(t)), s.hands[t].m;
            && Live(s, m)
            && (forall o :: Live(s', o) <==> Live(s, o) && o != m)
            && (forall o :: Active(s', o) <==> Active(s, o))
            && (forall i :: Kept(s', i) <==> Kept(s, i))
  {
    var s', m, status := Bearerbox.Apply(s, Callback(t)), s.hands[t].m, s.hands[t].status;
    assert Holds(s, m, InHand(t));
    CallbackRows(s, t);
    forall o ensures Active(s', o) <==> Active(s, o) {
      if o != m && Live(s, o) { assert Holds(s, o, s.place[o]) && Holds(s', o, s.place[o]); }
    }
    forall i | !(m.origin == FromRow(i) && IsFinal(status)) ensures Doomed(s', i) <==> Doomed(s, i) {
      if Doomed(s, i) {
        var d :| d in s.hands && s.hands[d].Finishing? && s.hands[d].m.origin == FromRow(i) && IsFinal(s.hands[d].status);
        assert d in s'.hands && s'.hands[d] == s.hands[d];
      }
    }
    forall i | m.origin == FromRow(i) && IsFinal(status) ensures Doomed(s, i) {
      assert t in s.hands && s.hands[t].Finishing?;
    }
  }

  lemma CallbackAccounts(s: State, t: Thread)
    requires PlacedStep(s, Callback(t)) && RowsAgree(s)
    ensures KeepsAccounts(s, Bearerbox.Apply(s, Callback(t)))
  {
    var s' := Bearerbox.Apply(s, Callback(t));
    CallbackStatus(s, t);
    CallbackRows(s, t);
    SameRowsKeep(s, s');
    assert forall d :: d in s'.hands ==> s.hands[d] == s'.hands[d];
    forall u | Owed(s', u) ensures Owed(s, u) {
      if u !in s.accepted && u in s'.accepted { assert s.hands[t].m.uuid == u && s.hands[t].status == ESME_ROK; }
    }
  }

  lemma CallbackKeeps(s: State, t: Thread)
    requires PlacedStep(s, Callback(t)) && Sound(s)
    ensures var s' := Bearerbox.Apply(s, Callback(t)); Sound(s') && KeepsAccounts(s, s')
  {
    var s', m := Bearerbox.Apply(s, Callback(t)), s.hands[t].m;
    CallbackStatus(s, t);
    CallbackRows(s, t);
    CallbackAccounts(s, t);
    assert UuidsUnique(s');
    forall o | Live(s', o) && o.origin.FromRow? ensures Live(s, o) && o.origin != m.origin {}
    assert RowsAgree(s');
  }

  /** A message nobody has seen before enters, for a submit or for a claimed row. */
  ghost predicate Enters(s: State, s': State, m: Msg, p: Place) {
    && FreshCtx(s, m) && s'.place == s.place[m := p] && !p.Completed?
    && s'.table == s.table && s'.store == s.store && s'.accepted == s.accepted
    && s'.delivered == s.delivered && s'.refused == s.refused
    && s'.batch == (if m.origin.FromRow? then s.batch - {m.origin.id} else s.batch)
    && SameCallbacks(s, s')
  }

  lemma EnteredStatus(s: State, s': State, m: Msg, p: Place)
    requires Placed(s) && Placed(s') && Enters(s, s', m, p)
    ensures forall o :: Live(s', o) <==> Live(s, o) || o == m
    ensures forall o :: Active(s', o) <==> Active(s, o) || o == m
    ensures forall i :: Doomed(s', i) <==> Doomed(s, i)
    ensures forall i :: Kept(s', i) <==> Kept(s, i)
  {
    assert m in s'.place && s'.place[m] == p;
    assert Holds(s', m, p);
    forall o ensures Active(s', o) <==> Active(s, o) || o == m {
      if o != m && Live(s, o) {
        assert o in s'.place && s'.place[o] == s.place[o];
        assert Holds(s, o, s.place[o]) && Holds(s', o, s.place[o]);
      }
      if o == m && p.InHand? && s'.hands[p.t].Finishing? {
        assert s.hands[p.t] == s'.hands[p.t] && Holds(s, m, p);
      }
    }
    forall i ensures Doomed(s', i) <==> Doomed(s, i) {}
  }

  /** A submit has a new uuid; a produced message has that of its row in the batch. */
  ghost predicate Introduced(s: State, m: Msg) {
    && (m.origin.FromSubmit? ==> FreshUuid(s, m.uuid))
    && (m.origin.FromRow? ==> m.origin.id in s.batch && s.batch[m.origin.id].uuid == m.uuid)
  }

  lemma EnterKeeps(s: State, s': State, m: Msg, p: Place)
    requires Placed(s) && Placed(s') && Sound(s) && Enters(s, s', m, p) && Introduced(s, m)
    ensures Sound(s') && KeepsAccounts(s, s')
  {
    EnteredStatus(s, s', m, p);
    EnteredUnique(s, s', m);
    EnteredRows(s, s', m);
    SameRowsKeep(s, s');
    assert forall u :: Owed(s', u) ==> Owed(s, u);
  }

  lemma EnteredRows(s: State, s': State, m: Msg)
    requires RowsAgree(s) && s'.table == s.table && s'.store == s.store && Introduced(s, m)
    requires s'.batch == (if m.origin.FromRow? then s.batch - {m.origin.id} else s.batch)
    requires forall o :: Live(s', o) <==> Live(s, o) || o == m
    ensures RowsAgree(s')
  {
    assert forall i :: Parked(s', i) <==> Parked(s, i);
    assert forall i :: Claimed(s', i) <==> Claimed(s, i);
    assert forall i :: Gone(s', i) <==> Gone(s, i);
  }

  lemma EnteredUnique(s: State, s': State, m: Msg)
    requires UuidsUnique(s) && s'.table == s.table && s'.store == s.store && Introduced(s, m)
    requires s'.batch == (if m.origin.FromRow? then s.batch - {m.origin.id} else s.batch)
    requires forall o :: Active(s', o) <==> Active(s, o) || o == m
    requires forall i :: Kept(s', i) <==> Kept(s, i)
    ensures UuidsUnique(s')
  {
    forall o | Active(s, o) && o != m ensures o.uuid != m.uuid {
      assert o in s.place;
    }
    forall i | Kept(s, i) && UuidOf(s, i) == m.uuid ensures m.origin == FromRow(i) {
      assert Parked(s, i);
    }
  }

  /** Store steps that leave the parked rows and their claims alone, or only claim a fresh batch. */
  lemma StoreChangeKeeps(s: State, s': State)
    requires Placed(s) && Sound(s) && SqlStore.Valid(s'.store)
    requires s'.table == s.table && s'.hands == s.hands && s'.place == s.place && s'.accepted == s.accepted
    requires s'.delivered == s.delivered && s'.refused == s.refused
    requires forall i :: Parked(s', i) <==> Parked(s, i)
    requires forall i :: Parked(s, i) ==> UuidOf(s', i) == UuidOf(s, i)
    requires forall i :: Gone(s, i) ==> Gone(s', i)
    requires forall i :: i in s.batch ==> i in s'.batch && s'.batch[i] == s.batch[i]
    requires forall i :: i in s'.batch && i !in s.batch ==>
                           Parked(s, i) && !Claimed(s, i) && !Gone(s, i) && s'.batch[i].uuid == UuidOf(s, i)
    requires forall i :: Parked(s, i) ==> (Claimed(s', i) <==> Claimed(s, i) || i in s'.batch)
    ensures Sound(s') && KeepsAccounts(s, s')
  {
    forall o ensures Live(s', o) <==> Live(s, o) {}
    forall o ensures Active(s', o) <==> Active(s, o) {}
    forall i ensures Doomed(s', i) <==> Doomed(s, i) {}
    assert forall i :: Kept(s', i) <==> Kept(s, i);
    SameRowsKeep(s, s');
    assert forall u :: Owed(s', u) ==> Owed(s, u);
    StoreChangeRows(s, s');
    StoreChangeUnique(s, s');
  }

  lemma StoreChangeRows(s: State, s': State)
    requires RowsAgree(s) && SqlStore.Valid(s'.store) && s'.table == s.table
    requires forall o :: Live(s', o) <==> Live(s, o)
    requires forall i :: Parked(s', i) <==> Parked(s, i)
    requires forall i :: Parked(s, i) ==> UuidOf(s', i) == UuidOf(s, i)
    requires forall i :: Gone(s, i) ==> Gone(s', i)
    requires forall i :: i in s.batch ==> i in s'.batch && s'.batch[i] == s.batch[i]
    requires forall i :: i in s'.batch && i !in s.batch ==>
                           Parked(s, i) && !Claimed(s, i) && !Gone(s, i) && s'.batch[i].uuid == UuidOf(s, i)
    requires forall i :: Parked(s, i) ==> (Claimed(s', i) <==> Claimed(s, i) || i in s'.batch)
    ensures RowsAgree(s')
  {
  }

  lemma StoreChangeUnique(s: State, s': State)
    requires Placed(s) && Sound(s) && s'.table == s.table
    requires forall o :: Active(s', o) <==> Active(s, o)
    requires forall i :: Kept(s', i) <==> Kept(s, i)
    requires forall i :: Parked(s', i) <==> Parked(s, i)
    requires forall i :: Parked(s, i) ==> UuidOf(s', i) == UuidOf(s, i)
    requires forall i :: i in s.batch ==> i in s'.batch && s'.batch[i] == s.batch[i]
    requires forall i :: i in s'.batch && i !in s.batch ==>
                           Parked(s, i) && !Claimed(s, i) && !Gone(s, i) && s'.batch[i].uuid == UuidOf(s, i)
    ensures UuidsUnique(s')
  {
    forall i | i in s'.batch && i !in s.batch ensures Kept(s, i) {
      if Doomed(s, i) { DoomedIsClaimed(s, i); }
    }
    forall m, i | Active(s, m) && i in s'.batch && i !in s.batch ensures s'.batch[i].uuid != m.uuid {
      assert Live(s, m) && Kept(s, i);
    }
  }

  // ------------------------------------------------------------------ rows of store-primary accounts, stale releases

  lemma AddedStatus(s: State, id: Id, row: Row)
    requires PlacedStep(s, StorePrimary(id, row)) && RowsAgree(s)
    ensures var s' := Bearerbox.Apply(s, StorePrimary(id, row));
            && (forall o :: Live(s', o) <==> Live(s, o))
            && (forall o :: Active(s', o) <==> Active(s, o))
            && (forall i :: Parked(s', i) <==> Parked(s, i) || i == id)
            && (forall i :: Parked(s, i) ==> UuidOf(s', i) == UuidOf(s, i))
            && (forall i :: Kept(s', i) <==> Kept(s, i) || i == id) && !Parked(s, id) && !Gone(s, id) && !Claimed(s, id)
  {
    var s' := Bearerbox.Apply(s, StorePrimary(id, row));
    forall i ensures Doomed(s', i) <==> Doomed(s, i) {}
    if Doomed(s, id) { DoomedIsClaimed(s, id); }
  }

  lemma AddedRows(s: State, id: Id, row: Row)
    requires PlacedStep(s, StorePrimary(id, row)) && RowsAgree(s)
    ensures RowsAgree(Bearerbox.Apply(s, StorePrimary(id, row)))
  {
    var s' := Bearerbox.Apply(s, StorePrimary(id, row));
    AddedStatus(s, id, row);
    assert forall i :: Claimed(s', i) <==> Claimed(s, i);
    assert forall i :: Gone(s, i) ==> Gone(s', i);
  }

  lemma StorePrimaryKeeps(s: State, id: Id, row: Row)
    requires PlacedStep(s, StorePrimary(id, row)) && Sound(s)
    ensures var s' := Bearerbox.Apply(s, StorePrimary(id, row)); Sound(s') && KeepsAccounts(s, s')
  {
    var s' := Bearerbox.Apply(s, StorePrimary(id, row));
    AddedStatus(s, id, row);
    AddedRows(s, id, row);
    AddedRowStaysUnique(s, s', id, row.uuid);
    SameRowsKeep(s, s');
    assert Kept(s', id) && UuidOf(s', id) == row.uuid;
    assert forall u :: Owed(s', u) ==> Owed(s, u) || u == row.uuid;
  }

  lemma AddedRowStaysUnique(s: State, s': State, id: Id, u: Uuid)
    requires UuidsUnique(s) && FreshUuid(s, u) && s'.batch == s.batch && !Parked(s, id)
    requires Parked(s', id) && UuidOf(s', id) == u && forall o :: Active(s', o) <==> Active(s, o)
    requires forall i :: Kept(s', i) <==> Kept(s, i) || i == id
    requires forall i :: Parked(s, i) ==> Parked(s', i) && UuidOf(s', i) == UuidOf(s, i)
    ensures UuidsUnique(s')
  {
    assert forall o :: Active(s, o) ==> o in s.place;
    assert forall i :: Kept(s, i) ==> Parked(s, i) && UuidOf(s, i) != u;
  }

  /** The step deletes the row of `u` that was to stay. */
  ghost predicate RobsRow(s: State, e: Bearerbox.Event, u: Uuid) {
    e.StaleRelease? && Kept(s, e.claim.1) && UuidOf(s, e.claim.1) == u
    && RemoveTarget(s.store, e.claim.1) == (s.table, e.claim.1)
  }

  /** And `u` was neither delivered nor refused. */
  ghost predicate Robs(s: State, e: Bearerbox.Event, u: Uuid) {
    RobsRow(s, e, u) && u !in s.delivered && u !in s.refused
  }

  /** Whatever a stale release deletes: of this table at most the row of its number, with its claim. */
  lemma StaleRows(s: State, claim: Key)
    requires RowsAgree(s) && Bearerbox.Enabled(s, StaleRelease(claim))
    ensures var s', n := Bearerbox.Apply(s, StaleRelease(claim)), claim.1;
            && SqlStore.Valid(s'.store)
            && (forall i :: i != n ==>
                  (Parked(s', i) <==> Parked(s, i)) && (Claimed(s', i) <==> Claimed(s, i)) && (Gone(s', i) <==> Gone(s, i)))
            && (forall i :: Parked(s', i) ==> Parked(s, i) && UuidOf(s', i) == UuidOf(s, i))
            && (Gone(s, n) ==> Gone(s', n))
            && (if RemoveTarget(s.store, n) == (s.table, n) then Parked(s, n) ==> Gone(s', n)
                else (Parked(s', n) <==> Parked(s, n)) && (Claimed(s', n) <==> Claimed(s, n)))
  {
    RemoveKeepsValid(s.store, claim.1, false);
  }

  lemma StaleKeeps(s: State, claim: Key)
    requires PlacedStep(s, StaleRelease(claim)) && Sound(s)
    ensures var s' := Bearerbox.Apply(s, StaleRelease(claim));
            && Sound(s')
            && (forall u :: Owed(s', u) <==> Owed(s, u))
            && (forall u :: AccountedFor(s, u) ==> (AccountedFor(s', u) <==> !Robs(s, StaleRelease(claim), u)))
  {
    var s', n := Bearerbox.Apply(s, StaleRelease(claim)), claim.1;
    StaleRows(s, claim);
    forall o ensures (Live(s', o) <==> Live(s, o)) && (Active(s', o) <==> Active(s, o)) {}
    forall i ensures Doomed(s', i) <==> Doomed(s, i) {}
    assert forall i :: Kept(s', i) ==> Kept(s, i);
    assert RowsAgree(s');
    assert UuidsUnique(s');
    StaleAccounts(s, claim);
  }

  lemma StaleAccounts(s: State, claim: Key)
    requires Bearerbox.Enabled(s, StaleRelease(claim)) && Sound(s)
    requires var s' := Bearerbox.Apply(s, StaleRelease(claim)); forall i :: Doomed(s', i) <==> Doomed(s, i)
    ensures var s' := Bearerbox.Apply(s, StaleRelease(claim));
            && (forall u :: Owed(s', u) <==> Owed(s, u))
            && (forall u :: AccountedFor(s, u) ==> (AccountedFor(s', u) <==> !Robs(s, StaleRelease(claim), u)))
  {
    var s', n, e := Bearerbox.Apply(s, StaleRelease(claim)), claim.1, StaleRelease(claim);
    StaleRows(s, claim);
    forall u | AccountedFor(s, u) ensures AccountedFor(s', u) <==> !Robs(s, e, u) {
      if u !in s.delivered && u !in s.refused {
        var i :| Kept(s, i) && UuidOf(s, i) == u;
        if RobsRow(s, e, u) {
          assert i == n && !Parked(s', n);
          assert forall j :: Kept(s', j) ==> Kept(s, j) && UuidOf(s', j) == UuidOf(s, j);
        } else {
          assert Kept(s', i) && UuidOf(s', i) == u;
        }
      }
    }
  }

  // ------------------------------------------------------------------ every step, every run

  /** Two messages on their way never share a uuid, so the dict_put finds the key free. */
  lemma RegisterFindsKeyFree(s: State, b: nat, ok: bool)
    requires Inv(s) && Bearerbox.Enabled(s, Register(b, ok))
    ensures forall c :: 0 <= c < |s.boxes| ==> s.hands[Writer(b)].m.uuid !in s.boxes[c].openAcks
  {
    var m := s.hands[Writer(b)].m;
    assert Holds(s, m, InHand(Writer(b)));
    forall c | 0 <= c < |s.boxes| && m.uuid in s.boxes[c].openAcks ensures false {
      var o := s.boxes[c].openAcks[m.uuid];
      assert Holds(s, o, InAcks(c));
      assert Active(s, o) && Active(s, m);
    }
  }

  lemma StepKeepsPlaces(s: State, e: Bearerbox.Event)
    requires Inv(s) && Bearerbox.Enabled(s, e)
    ensures Placed(Bearerbox.Apply(s, e))
  {
    match e
    case Submit(n, m) => SubmitPlaces(s, n, m);
    case Offer(t, online, parked) => OfferPlaces(s, t, online, parked);
    case Take(b, m) => TakePlaces(s, b, m);
    case Register(b, ok) =>
      RegisterFindsKeyFree(s, b, ok);
      RegisterPlaces(s, b, ok);
    case WriteDone(b) => WriteDonePlaces(s, b);
    case Ack(b, uuid, kind) =>
      if uuid in s.boxes[b].openAcks {
        LeaveAcksPlaces(s, Bearerbox.Apply(s, e), b, uuid, AckStatus(kind));
      }
    case Callback(t) => CallbackPlaces(s, t);
    case Drop(_) => SamePlaces(s, Bearerbox.Apply(s, e));
    case FlushOne(b, uuid) => LeaveAcksPlaces(s, Bearerbox.Apply(s, e), b, uuid, ESME_RSYSERR);
    case Reconnect(_, _) => SamePlaces(s, Bearerbox.Apply(s, e));
    case FetchStored(_) => SamePlaces(s, Bearerbox.Apply(s, e));
    case Produce(id, m) => ProducePlaces(s, id, m);
    case OtherStoreUse(_) => SamePlaces(s, Bearerbox.Apply(s, e));
    case StorePrimary(_, _) => SamePlaces(s, Bearerbox.Apply(s, e));
    case StaleRelease(_) => SamePlaces(s, Bearerbox.Apply(s, e));
  }

  lemma OfferKeepsSound(s: State, e: Bearerbox.Event)
    requires Inv(s) && PlacedStep(s, e) && e.Offer? && e.online
    ensures Sound(Bearerbox.Apply(s, e)) && KeepsAccounts(s, Bearerbox.Apply(s, e))
  {
    assert Holds(s, s.hands[e.t].m, InHand(e.t));
    StillActive(s, Bearerbox.Apply(s, e), s.hands[e.t].m, InQueue);
  }

  lemma TakeKeepsSound(s: State, b: nat, m: Msg)
    requires Inv(s) && PlacedStep(s, Take(b, m))
    ensures Sound(Bearerbox.Apply(s, Take(b, m))) && KeepsAccounts(s, Bearerbox.Apply(s, Take(b, m)))
  {
    assert Holds(s, m, InQueue);
    StillActive(s, Bearerbox.Apply(s, Take(b, m)), m, InHand(Writer(b)));
  }

  lemma RegisterKeepsSound(s: State, b: nat, ok: bool)
    requires Inv(s) && PlacedStep(s, Register(b, ok))
    ensures Sound(Bearerbox.Apply(s, Register(b, ok))) && KeepsAccounts(s, Bearerbox.Apply(s, Register(b, ok)))
  {
    var m := s.hands[Writer(b)].m;
    assert Holds(s, m, InHand(Writer(b)));
    StillActive(s, Bearerbox.Apply(s, Register(b, ok)), m, InAcks(b));
  }

  lemma BoxStepKeepsSound(s: State, e: Bearerbox.Event)
    requires Inv(s) && PlacedStep(s, e) && (e.WriteDone? || e.Drop? || e.Reconnect?)
    ensures Sound(Bearerbox.Apply(s, e)) && KeepsAccounts(s, Bearerbox.Apply(s, e))
  {
    var s' := Bearerbox.Apply(s, e);
    match e
    case WriteDone(b) =>
      var w := s.boxes[b].writing.value;
      if w.ok { SameStatusKeeps(s, s'); } else { StillActive(s, s', w.m, InHand(Writer(b))); }
    case Drop(_) => SameStatusKeeps(s, s');
    case Reconnect(_, _) => SameStatusKeeps(s, s');
  }

  lemma SettlingKeepsSound(s: State, e: Bearerbox.Event)
    requires Inv(s) && PlacedStep(s, e)
    requires e.Ack? || e.FlushOne? || (e.Offer? && !e.online)
    ensures Sound(Bearerbox.Apply(s, e)) && KeepsAccounts(s, Bearerbox.Apply(s, e))
  {
    var s' := Bearerbox.Apply(s, e);
    match e
    case Offer(t, _, parked) =>
      assert Holds(s, s.hands[t].m, InHand(t));
      if parked.Some? { ParkKeeps(s, t, parked.value); } else { SettleKeeps(s, s', s.hands[t].m, t, ESME_RSYSERR); }
    case Ack(b, uuid, kind) =>
      if uuid in s.boxes[b].openAcks {
        var m := s.boxes[b].openAcks[uuid];
        assert Holds(s, m, InAcks(b));
        SettleKeeps(s, s', m, Reader(b), AckStatus(kind));
      }
    case FlushOne(b, uuid) =>
      var m := s.boxes[b].openAcks[uuid];
      assert Holds(s, m, InAcks(b));
      SettleKeeps(s, s', m, Reader(b), ESME_RSYSERR);
  }

  lemma FetchKeepsSound(s: State, ids: seq<Id>)
    requires Inv(s) && PlacedStep(s, FetchStored(ids))
    ensures Sound(Bearerbox.Apply(s, FetchStored(ids))) && KeepsAccounts(s, Bearerbox.Apply(s, FetchStored(ids)))
  {
    ClaimAllKeepsValid(s.store, s.table, ids);
    StoreChangeKeeps(s, Bearerbox.Apply(s, FetchStored(ids)));
  }

  lemma OtherUseKeepsRows(s: State, u: SqlStore.Event)
    requires SqlStore.Valid(s.store) && Bearerbox.Enabled(s, OtherStoreUse(u))
    ensures var s' := Bearerbox.Apply(s, OtherStoreUse(u));
            && SqlStore.Valid(s'.store)
            && (forall i :: Parked(s', i) <==> Parked(s, i))
            && (forall i :: Gone(s, i) ==> Gone(s', i))
            && (forall i :: Parked(s, i) ==> UuidOf(s', i) == UuidOf(s, i) && (Claimed(s', i) <==> Claimed(s, i)))
  {
    match u
    case Add(_, _, _) =>
    case Fetch(from, _, _, ids) => ClaimAllKeepsValid(s.store, from, ids);
    case Release(claim, temporary) => ReleaseIsExact(s.store, claim, temporary);
  }

  lemma OtherUseKeepsSound(s: State, u: SqlStore.Event)
    requires Inv(s) && PlacedStep(s, OtherStoreUse(u))
    ensures Sound(Bearerbox.Apply(s, OtherStoreUse(u))) && KeepsAccounts(s, Bearerbox.Apply(s, OtherStoreUse(u)))
  {
    OtherUseKeepsRows(s, u);
    StoreChangeKeeps(s, Bearerbox.Apply(s, OtherStoreUse(u)));
  }

  /** Every step keeps rows and uuids in order, and the accounts too, but for the uuid that a stale release robs. */
  lemma StepKeepsSound(s: State, e: Bearerbox.Event)
    requires Inv(s) && PlacedStep(s, e)
    ensures Sound(Bearerbox.Apply(s, e)) && (!e.StaleRelease? ==> KeepsAccounts(s, Bearerbox.Apply(s, e)))
  {
    match e
    case Submit(n, m) => EnterKeeps(s, Bearerbox.Apply(s, e), m, InHand(Submitter(n)));
    case Produce(id, m) => EnterKeeps(s, Bearerbox.Apply(s, e), m, InQueue);
    case Callback(t) => CallbackKeeps(s, t);
    case Ack(_, _, _) => SettlingKeepsSound(s, e);
    case FlushOne(_, _) => SettlingKeepsSound(s, e);
    case FetchStored(ids) => FetchKeepsSound(s, ids);
    case OtherStoreUse(u) => OtherUseKeepsSound(s, u);
    case StorePrimary(id, row) => StorePrimaryKeeps(s, id, row);
    case StaleRelease(claim) => StaleKeeps(s, claim);
    case Offer(_, online, _) => if online { OfferKeepsSound(s, e); } else { SettlingKeepsSound(s, e); }
    case Take(b, m) => TakeKeepsSound(s, b, m);
    case Register(b, ok) => RegisterKeepsSound(s, b, ok);
    case WriteDone(_) => BoxStepKeepsSound(s, e);
    case Drop(_) => BoxStepKeepsSound(s, e);
    case Reconnect(_, _) => BoxStepKeepsSound(s, e);
  }

  lemma StepKeepsInv(s: State, e: Bearerbox.Event)
    requires Inv(s) && Bearerbox.Enabled(s, e)
    ensures Inv(Bearerbox.Apply(s, e))
  {
    StepKeepsPlaces(s, e);
    StepKeepsSound(s, e);
  }

  lemma {:induction false} RunKeepsInv(s: State, events: seq<Bearerbox.Event>, t: State)
    requires Inv(s) && Bearerbox.Run(s, events, t)
    ensures Inv(t)
    decreases |events|
  {
    if events != [] {
      StepKeepsInv(s, events[0]);
      RunKeepsInv(Bearerbox.Apply(s, events[0]), events[1..], t);
    }
  }

  lemma InitialIsInv(s: State)
    requires Initial(s)
    ensures Inv(s) && forall u :: Owed(s, u) ==> AccountedFor(s, u)
  {
    forall u | Owed(s, u) ensures AccountedFor(s, u) {
      var id :| Parked(s, id) && UuidOf(s, id) == u;
      assert Kept(s, id);
    }
  }

  // ------------------------------------------------------------------ theorems

  ghost predicate Introduces(e: Bearerbox.Event, m: Msg) {
    (e.Submit? || e.Produce?) && e.m == m
  }

  ghost predicate IntroducedIn(events: seq<Bearerbox.Event>, m: Msg) {
    exists i :: 0 <= i < |events| && Introduces(events[i], m)
  }

  ghost predicate AckedIn(events: seq<Bearerbox.Event>, u: Uuid, kinds: set<AckKind>) {
    exists i :: 0 <= i < |events| && events[i].Ack? && events[i].uuid == u && events[i].kind in kinds
  }

  /** Exactly the submitted and produced messages ever get a place. */
  lemma {:induction false} PlacedAreIntroduced(s: State, events: seq<Bearerbox.Event>, t: State)
    requires Inv(s) && Bearerbox.Run(s, events, t)
    ensures forall m :: m in t.place <==> m in s.place || IntroducedIn(events, m)
    decreases |events|
  {
    if events != [] {
      var e, rest := events[0], events[1..];
      StepKeepsInv(s, e);
      PlacedAreIntroduced(Bearerbox.Apply(s, e), rest, t);
      IntroducedFirst(events);
      StepPlaces(s, e);
    }
  }

  lemma IntroducedFirst(events: seq<Bearerbox.Event>)
    requires events != []
    ensures forall m :: IntroducedIn(events, m) <==> Introduces(events[0], m) || IntroducedIn(events[1..], m)
  {
    var rest := events[1..];
    assert events == [events[0]] + rest;
    forall m | IntroducedIn(rest, m) ensures IntroducedIn(events, m) {
      var i :| 0 <= i < |rest| && Introduces(rest[i], m);
      assert events[i + 1] == rest[i];
    }
    forall m | IntroducedIn(events, m) ensures Introduces(events[0], m) || IntroducedIn(rest, m) {
      var i :| 0 <= i < |events| && Introduces(events[i], m);
      assert i > 0 ==> rest[i - 1] == events[i];
    }
  }

  ghost predicate AnsweredOk(s: State, u: Uuid) {
    exists i :: 0 <= i < |s.log| && s.log[i].0.origin.FromSubmit? && s.log[i].1 == ESME_ROK && s.log[i].0.uuid == u
  }

  /** Every uuid answered with status 0 is among the accepted ones. */
  lemma {:induction false} AnswersAreAccepted(s: State, events: seq<Bearerbox.Event>, t: State)
    requires Bearerbox.Run(s, events, t) && forall u :: AnsweredOk(s, u) ==> u in s.accepted
    ensures s.accepted <= t.accepted && forall u :: AnsweredOk(t, u) ==> u in t.accepted
    decreases |events|
  {
    if events != [] {
      var mid := Bearerbox.Apply(s, events[0]);
      forall u | AnsweredOk(mid, u) ensures u in mid.accepted {
        var i :| 0 <= i < |mid.log| && mid.log[i].0.origin.FromSubmit? && mid.log[i].1 == ESME_ROK && mid.log[i].0.uuid == u;
        if i < |s.log| { assert mid.log[i] == s.log[i] && AnsweredOk(s, u); }
      }
      AnswersAreAccepted(mid, events[1..], t);
    }
  }

  lemma StepPlaces(s: State, e: Bearerbox.Event)
    requires Placed(s) && Bearerbox.Enabled(s, e)
    ensures var t := Bearerbox.Apply(s, e);
            forall m :: m in t.place <==> m in s.place || Introduces(e, m)
  {
    match e
    case Ack(b, uuid, kind) =>
      if uuid in s.boxes[b].openAcks { assert Holds(s, s.boxes[b].openAcks[uuid], InAcks(b)); }
    case FlushOne(b, uuid) => assert Holds(s, s.boxes[b].openAcks[uuid], InAcks(b));
    case Offer(t, _, _) => assert Holds(s, s.hands[t].m, InHand(t));
    case Take(_, m) => assert Holds(s, m, InQueue);
    case Register(b, _) => assert Holds(s, s.hands[Writer(b)].m, InHand(Writer(b)));
    case WriteDone(b) =>
      var w := s.boxes[b].writing.value;
      if !w.ok { assert Holds(s, w.m, InAcks(b)); }
    case Callback(t) => assert Holds(s, s.hands[t].m, InHand(t));
    case _ =>
  }

  /** In every run with any number of bearerboxes, every message that entered is held by exactly one
      place - the queue, one thread's hand, one open_acks or the completed callbacks - and by that
      place once; nothing else is held anywhere; and no callback context completes twice. */
  lemma EveryContextIsInOnePlace(s: State, events: seq<Bearerbox.Event>, t: State)
    requires Initial(s) && Bearerbox.Run(s, events, t)
    ensures forall m :: IntroducedIn(events, m) <==> exists p :: Holds(t, m, p)
    ensures forall m, p, q :: Holds(t, m, p) && Holds(t, m, q) ==> p == q
    ensures forall m :: t.queue[m] <= 1
    ensures forall i, j :: 0 <= i < j < |t.log| ==> t.log[i].0.ctx != t.log[j].0.ctx
  {
    InitialIsInv(s);
    RunKeepsInv(s, events, t);
    PlacedAreIntroduced(s, events, t);
    forall m | IntroducedIn(events, m) ensures exists p :: Holds(t, m, p) {
      assert Holds(t, m, t.place[m]);
    }
    forall i, j | 0 <= i < j < |t.log| ensures t.log[i].0.ctx != t.log[j].0.ctx {
      assert Holds(t, t.log[i].0, Completed(t.log[i].1)) && Holds(t, t.log[j].0, Completed(t.log[j].1));
    }
  }

  /** Whenever a writer is about to put a message into open_acks, no bearerbox has its uuid there. */
  lemma NoAckEntryIsOverwritten(s: State, events: seq<Bearerbox.Event>, t: State, b: nat, ok: bool)
    requires Initial(s) && Bearerbox.Run(s, events, t) && Bearerbox.Enabled(t, Register(b, ok))
    ensures forall c :: 0 <= c < |t.boxes| ==> t.hands[Writer(b)].m.uuid !in t.boxes[c].openAcks
  {
    InitialIsInv(s);
    RunKeepsInv(s, events, t);
    RegisterFindsKeyFree(t, b, ok);
  }

  /** Row `id` is the only one with uuid `u` that no pending callback will delete. */
  ghost predicate OnlyRow(t: State, id: Id, u: Uuid) {
    && Kept(t, id) && UuidOf(t, id) == u
    && (forall j :: Kept(t, j) && UuidOf(t, j) == u ==> j == id)
  }

  /** At some point of the run a bearerbox answered for the message it held open under `u`: it has buffered or sent
      it, or (`taken` is false) it refused a message from the store for good. A refusal for now and an answer of
      any other kind are neither. */
  ghost predicate SettledIn(s: State, events: seq<Bearerbox.Event>, i: nat, mid: State, u: Uuid, taken: bool) {
    && i < |events| && Bearerbox.Run(s, events[..i], mid) && events[i].Ack? && events[i].uuid == u
    && events[i].b < |mid.boxes| && u in mid.boxes[events[i].b].openAcks
    && (if taken then events[i].kind == AckBuffered || events[i].kind == AckSuccess
        else events[i].kind == AckFailed && mid.boxes[events[i].b].openAcks[u].origin.FromRow?)
  }

  /** What counts as delivered or refused was an ack for an open message, and a refusal one on a requeue. */
  lemma {:induction false} OutcomesSettleOpenMessages(s: State, events: seq<Bearerbox.Event>, t: State)
    requires Bearerbox.Run(s, events, t)
    ensures forall u :: u in t.delivered && u !in s.delivered ==> exists i, mid :: SettledIn(s, events, i, mid, u, true)
    ensures forall u :: u in t.refused && u !in s.refused ==> exists i, mid :: SettledIn(s, events, i, mid, u, false)
    decreases |events|
  {
    if events != [] {
      var next, rest := Bearerbox.Apply(s, events[0]), events[1..];
      OutcomesSettleOpenMessages(next, rest, t);
      FirstStepSettles(s, events);
      forall i: nat, mid, u, taken | SettledIn(next, rest, i, mid, u, taken)
        ensures SettledIn(s, events, i + 1, mid, u, taken)
      {
        SettledLater(s, events, i, mid, u, taken);
      }
    }
  }

  /** In particular there was such an ack. */
  lemma OutcomesAreAcked(s: State, events: seq<Bearerbox.Event>, t: State)
    requires Bearerbox.Run(s, events, t)
    ensures forall u :: u in t.delivered ==> u in s.delivered || AckedIn(events, u, {AckBuffered, AckSuccess})
    ensures forall u :: u in t.refused ==> u in s.refused || AckedIn(events, u, {AckFailed})
  {
    OutcomesSettleOpenMessages(s, events, t);
    assert forall i: nat, mid, u, taken :: SettledIn(s, events, i, mid, u, taken) ==>
             AckedIn(events, u, if taken then {AckBuffered, AckSuccess} else {AckFailed});
  }

  lemma SettledLater(s: State, events: seq<Bearerbox.Event>, i: nat, mid: State, u: Uuid, taken: bool)
    requires events != [] && Bearerbox.Enabled(s, events[0])
    requires SettledIn(Bearerbox.Apply(s, events[0]), events[1..], i, mid, u, taken)
    ensures SettledIn(s, events, i + 1, mid, u, taken)
  {
    assert events[..i + 1][1..] == events[1..][..i];
  }

  lemma FirstStepSettles(s: State, events: seq<Bearerbox.Event>)
    requires events != [] && Bearerbox.Enabled(s, events[0])
    ensures var t := Bearerbox.Apply(s, events[0]);
            && (forall u :: u in t.delivered && u !in s.delivered ==> SettledIn(s, events, 0, s, u, true))
            && (forall u :: u in t.refused && u !in s.refused ==> SettledIn(s, events, 0, s, u, false))
  {
    assert Bearerbox.Run(s, events[..0], s);
  }

  /** At some point of the run a stale release deleted the row on which `u` rested. */
  ghost predicate RobbedIn(s: State, events: seq<Bearerbox.Event>, i: nat, mid: State, u: Uuid) {
    i < |events| && Bearerbox.Run(s, events[..i], mid) && Bearerbox.Enabled(mid, events[i]) && Robs(mid, events[i], u)
  }

  lemma StepKeepsAccounts(s: State, e: Bearerbox.Event)
    requires Inv(s) && Bearerbox.Enabled(s, e)
    ensures var s' := Bearerbox.Apply(s, e);
            && (forall u :: AccountedFor(s, u) ==> (AccountedFor(s', u) <==> !Robs(s, e, u)))
            && (forall u :: Owed(s', u) ==> Owed(s, u) || AccountedFor(s', u))
            && (e.StaleRelease? ==> forall u :: Owed(s', u) <==> Owed(s, u))
  {
    StepKeepsPlaces(s, e);
    if e.StaleRelease? { StaleKeeps(s, e.claim); } else { StepKeepsSound(s, e); }
  }

  /** Only a stale release takes an owed uuid out of the accounts. */
  lemma {:induction false} UnaccountedWasRobbed(s: State, events: seq<Bearerbox.Event>, t: State, u: Uuid)
    requires Inv(s) && Bearerbox.Run(s, events, t) && (Owed(s, u) ==> AccountedFor(s, u))
    requires Owed(t, u) && !AccountedFor(t, u)
    ensures exists i, mid :: RobbedIn(s, events, i, mid, u)
    decreases |events|
  {
    if events != [] {
      var e, next, rest := events[0], Bearerbox.Apply(s, events[0]), events[1..];
      StepKeepsInv(s, e);
      StepKeepsAccounts(s, e);
      if Robs(s, e, u) {
        RobbedFirst(s, events, u);
      } else {
        UnaccountedWasRobbed(next, rest, t, u);
        var i: nat, mid :| RobbedIn(next, rest, i, mid, u);
        RobbedLater(s, events, i, mid, u);
      }
    }
  }

  lemma RobbedFirst(s: State, events: seq<Bearerbox.Event>, u: Uuid)
    requires events != [] && Bearerbox.Enabled(s, events[0]) && Robs(s, events[0], u)
    ensures RobbedIn(s, events, 0, s, u)
  {
    assert Bearerbox.Run(s, events[..0], s);
  }

  lemma RobbedLater(s: State, events: seq<Bearerbox.Event>, i: nat, mid: State, u: Uuid)
    requires events != [] && Bearerbox.Enabled(s, events[0])
    requires RobbedIn(Bearerbox.Apply(s, events[0]), events[1..], i, mid, u)
    ensures RobbedIn(s, events, i + 1, mid, u)
  {
    assert events[..i + 1][1..] == events[1..][..i];
  }

  /** What becomes of an accepted message, in any run, stale releases included: each uuid answered with status 0,
      in this run or before it, was acknowledged by a bearerbox that held it open, refused for good by one on a
      requeue, or has exactly one fallback row that outlives the callbacks in progress - also after a claimed row
      was parked again under a new id - unless a stale release deleted that row. With no callback in progress it
      is simply the only row with this uuid. */
  lemma NoAcceptedMessageIsLost(s: State, events: seq<Bearerbox.Event>, t: State, u: Uuid)
    requires Initial(s) && Bearerbox.Run(s, events, t)
    requires u in s.accepted || u in t.accepted || AnsweredOk(t, u)
    ensures u in t.delivered || u in t.refused || (exists id :: OnlyRow(t, id, u))
            || exists i, mid :: RobbedIn(s, events, i, mid, u)
    ensures u in t.delivered ==> exists i, mid :: SettledIn(s, events, i, mid, u, true)
    ensures u in t.refused ==> exists i, mid :: SettledIn(s, events, i, mid, u, false)
    ensures (forall h :: h in t.hands ==> t.hands[h].Carrying?) ==>
              forall id, j :: OnlyRow(t, id, u) && Parked(t, j) && UuidOf(t, j) == u ==> j == id
  {
    InitialIsInv(s);
    RunKeepsInv(s, events, t);
    OutcomesSettleOpenMessages(s, events, t);
    AnswersAreAccepted(s, events, t);
    if !AccountedFor(t, u) {
      UnaccountedWasRobbed(s, events, t, u);
    } else if u !in t.delivered && u !in t.refused {
      var id :| Kept(t, id) && UuidOf(t, id) == u;
      assert OnlyRow(t, id, u);
    }
    if forall h :: h in t.hands ==> t.hands[h].Carrying? {
      assert forall j :: Parked(t, j) ==> Kept(t, j);
    }
  }
}
