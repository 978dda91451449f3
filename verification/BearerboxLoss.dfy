/** What stale releases and failed deletions cost the outbound MT protocol, and exactly when. */
module BearerboxLoss {
  import opened Common
  import opened SqlStore
  import opened Bearerbox
  import opened BearerboxSafety

  // ------------------------------------------------------------------ whole runs

  ghost predicate AllAccounted(s: State) {
    forall u :: Owed(s, u) ==> AccountedFor(s, u)
  }

  /** In every state of the run, whatever the server has answered for is accounted for. */
  ghost predicate AlwaysAccounted(s: State, events: seq<Bearerbox.Event>)
    decreases |events|
  {
    && AllAccounted(s)
    && (events != [] && Bearerbox.Enabled(s, events[0]) ==> AlwaysAccounted(Bearerbox.Apply(s, events[0]), events[1..]))
  }

  /** No stale release of the run deletes a row that an owed message rests on. */
  ghost predicate NeverRobs(s: State, events: seq<Bearerbox.Event>)
    decreases |events|
  {
    events != [] && Bearerbox.Enabled(s, events[0]) ==>
      && (forall u :: Robs(s, events[0], u) ==> !Owed(s, u))
      && NeverRobs(Bearerbox.Apply(s, events[0]), events[1..])
  }

  lemma {:induction false} KeptExactlyUnlessRobbed(s: State, events: seq<Bearerbox.Event>, t: State)
    requires Inv(s) && AllAccounted(s) && Bearerbox.Run(s, events, t)
    ensures AlwaysAccounted(s, events) <==> NeverRobs(s, events)
    decreases |events|
  {
    if events != [] {
      var e, next := events[0], Bearerbox.Apply(s, events[0]);
      StepKeepsInv(s, e);
      StepKeepsAccounts(s, e);
      if u :| Robs(s, e, u) && Owed(s, u) {
        assert !AccountedFor(next, u);
        assert !AlwaysAccounted(next, events[1..]);
      } else {
        assert AllAccounted(next);
        KeptExactlyUnlessRobbed(next, events[1..], t);
      }
    }
  }

  /** No accepted message is lost, in any state of a run, exactly when no stale release of the run deletes the
      row of one that was neither delivered nor refused. */
  lemma AcceptedAreKeptIff(s: State, events: seq<Bearerbox.Event>, t: State)
    requires Initial(s) && Bearerbox.Run(s, events, t)
    ensures AlwaysAccounted(s, events) <==> NeverRobs(s, events)
  {
    InitialIsInv(s);
    KeptExactlyUnlessRobbed(s, events, t);
  }

  /** MO and reports are claimed in the primary table. Their repeated release hits an MT row exactly when the
      claim dictionary has the number for the fallback table. */
  lemma StaleReleaseRobsIff(s: State, claim: Key, u: Uuid)
    requires Inv(s) && Bearerbox.Enabled(s, StaleRelease(claim)) && claim.0 == s.store.primary
    ensures RobsRow(s, StaleRelease(claim), u) <==>
            Kept(s, claim.1) && UuidOf(s, claim.1) == u
            && claim.1 in s.store.pendingStore && s.store.pendingStore[claim.1] == s.table
  {
    assert claim.1 !in s.store.pendingStore && s.table == s.store.primary ==> (s.table, claim.1) !in s.store.rows;
  }

  lemma TablesStay(s: State, e: Bearerbox.Event)
    requires Bearerbox.Enabled(s, e)
    ensures var n := Bearerbox.Apply(s, e); n.table == s.table && n.store.primary == s.store.primary
  {
  }

  lemma OneTableSpares(s: State, claim: Key)
    requires Inv(s) && Bearerbox.Enabled(s, StaleRelease(claim)) && claim.0 == s.store.primary == s.table
    ensures forall u :: !Robs(s, StaleRelease(claim), u)
  {
    assert forall id :: id in s.store.pendingStore ==> (s.store.pendingStore[id], id) in s.store.claims;
  }

  /** With one table for everything no such release ever hits. */
  lemma {:induction false} OneTableNeverRobs(s: State, events: seq<Bearerbox.Event>, t: State)
    requires Inv(s) && Bearerbox.Run(s, events, t) && s.table == s.store.primary
    requires forall i :: 0 <= i < |events| && events[i].StaleRelease? ==> events[i].claim.0 == s.store.primary
    ensures NeverRobs(s, events)
    decreases |events|
  {
    if events != [] {
      var e, next := events[0], Bearerbox.Apply(s, events[0]);
      StepKeepsInv(s, e);
      TablesStay(s, e);
      if e.StaleRelease? { OneTableSpares(s, e.claim); }
      forall i | 0 <= i < |events[1..]| && events[1..][i].StaleRelease? ensures events[1..][i].claim.0 == s.store.primary {
        assert events[1..][i] == events[i + 1];
      }
      OneTableNeverRobs(next, events[1..], t);
    }
  }

  /** So without a queue table no accepted message is ever lost. */
  lemma OneTableLosesNothing(s: State, events: seq<Bearerbox.Event>, t: State)
    requires Initial(s) && Bearerbox.Run(s, events, t) && s.table == s.store.primary
    requires forall i :: 0 <= i < |events| && events[i].StaleRelease? ==> events[i].claim.0 == s.store.primary
    ensures AlwaysAccounted(s, events)
  {
    InitialIsInv(s);
    OneTableNeverRobs(s, events, t);
    AcceptedAreKeptIff(s, events, t);
  }

  // ------------------------------------------------------------------ a run that loses a message

  lemma RunCons(s: State, e: Bearerbox.Event, rest: seq<Bearerbox.Event>, t: State)
    requires Bearerbox.Enabled(s, e) && Bearerbox.Run(Bearerbox.Apply(s, e), rest, t)
    ensures Bearerbox.Run(s, [e] + rest, t)
  {
    assert ([e] + rest)[1..] == rest;
  }

  /** Two tables, and a parked message under a number that the primary table has not used. */
  ghost predicate Exposed(s: State, n: Id) {
    && Initial(s) && |s.boxes| > 0 && s.store.primary != s.table
    && Parked(s, n) && UuidOf(s, n) in s.accepted && (s.store.primary, n) !in s.store.used
    && (forall i :: Parked(s, i) && UuidOf(s, i) == UuidOf(s, n) ==> i == n)
  }

  /** Nothing is claimed, and the primary table has never used the number. */
  predicate Untouched(s: State, n: Id) {
    && s.store.claims == {} && s.store.pendingStore == map[] && s.store.pendingMsg == map[]
    && s.store.primary != s.table && (s.store.primary, n) !in s.store.used && (s.store.primary, n) !in s.store.rows
  }

  lemma NoClaims(store: Store)
    requires SqlStore.Valid(store) && store.claims == {}
    ensures store.pendingStore == map[] && store.pendingMsg == map[]
  {
    assert forall id :: id in store.pendingStore ==> (store.pendingStore[id], id) in store.claims;
    assert store.pendingStore.Keys == {} == store.pendingMsg.Keys;
  }

  /** An MO is stored under the same number and fetched. */
  lemma MoClaimed(s: State, n: Id, mo: Row) returns (events: seq<Bearerbox.Event>, t: State)
    requires Untouched(s, n) && mo.smsType == Mo
    ensures Bearerbox.Run(s, events, t)
    ensures var p := s.store.primary;
            t == s.(store := ClaimOne(Insert(s.store, p, n, mo), p, n))
  {
    var p := s.store.primary;
    var add, fetch := OtherStoreUse(Add(p, n, mo)), OtherStoreUse(Fetch(p, Mo, "", [n]));
    var s1 := Bearerbox.Apply(s, add);
    ClaimsOne(s1.store, p, n);
    assert Bearerbox.Enabled(s1, fetch);
    t := Bearerbox.Apply(s1, fetch);
    RunCons(s1, fetch, [], t);
    RunCons(s, add, [fetch] + [], t);
    events := [add] + ([fetch] + []);
  }

  /** And released by its first part. */
  lemma MoComesAndGoes(s: State, n: Id, mo: Row) returns (events: seq<Bearerbox.Event>, t: State)
    requires Untouched(s, n) && mo.smsType == Mo
    ensures Bearerbox.Run(s, events, t) && t == s.(store := s.store.(used := s.store.used + {(s.store.primary, n)}))
  {
    var first, s1 := MoClaimed(s, n, mo);
    var release := OtherStoreUse(Release((s.store.primary, n), false));
    t := Bearerbox.Apply(s1, release);
    assert t.store.rows == s.store.rows && t.store.claims == {} && t.store.pendingStore == map[] && t.store.pendingMsg == map[];
    RunCons(s1, release, [], t);
    RunConcat(s, first, s1, [release] + [], t);
    events := first + ([release] + []);
  }

  /** The requeue thread claims the MT row. */
  lemma Requeued(s: State, n: Id, m: Msg) returns (events: seq<Bearerbox.Event>, t: State)
    requires s.batch == map[] && s.place == map[] && Parked(s, n) && m.origin == FromRow(n)
    requires m.uuid == UuidOf(s, n) && m.service == s.store.rows[(s.table, n)].service
    requires s.store.pendingStore == map[] && s.store.pendingMsg == map[]
    ensures Bearerbox.Run(s, events, t)
    ensures t == s.(queue := s.queue + multiset{m}, place := map[m := InQueue], store := ClaimOne(s.store, s.table, n))
  {
    var fetch, produce := FetchStored([n]), Produce(n, m);
    ClaimsOne(s.store, s.table, n);
    assert Bearerbox.Enabled(s, fetch);
    var s1 := Bearerbox.Apply(s, fetch);
    assert s1.batch == map[n := s.store.rows[(s.table, n)]];
    t := Bearerbox.Apply(s1, produce);
    assert t.batch == map[] && t.place == map[m := InQueue];
    RunCons(s1, produce, [], t);
    RunCons(s, fetch, [produce] + [], t);
    events := [fetch] + ([produce] + []);
  }

  /** And the second part of the MO releases its number again. */
  lemma RobbedInTheQueue(s: State, n: Id, m: Msg) returns (events: seq<Bearerbox.Event>, t: State)
    requires s.batch == map[] && s.place == map[] && s.table != s.store.primary && Parked(s, n) && m.origin == FromRow(n)
    requires m.uuid == UuidOf(s, n) && m.service == s.store.rows[(s.table, n)].service
    requires s.store.pendingStore == map[] && s.store.pendingMsg == map[] && s.store.claims == {}
    requires (s.store.primary, n) in s.store.used && (s.store.primary, n) !in s.store.rows
    ensures Bearerbox.Run(s, events, t)
    ensures t == s.(queue := s.queue + multiset{m}, place := map[m := InQueue],
                    store := s.store.(rows := s.store.rows - {(s.table, n)}))
  {
    var first, s1 := Requeued(s, n, m);
    var stale := StaleRelease((s.store.primary, n));
    t := Bearerbox.Apply(s1, stale);
    assert t.store == s.store.(rows := s.store.rows - {(s.table, n)}) by {
      assert t.store.claims == {} && t.store.pendingStore == map[] && t.store.pendingMsg == map[];
    }
    RunCons(s1, stale, [], t);
    RunConcat(s, first, s1, [stale] + [], t);
    events := first + ([stale] + []);
  }

  /** A bearerbox comes up and its writer takes the message. */
  lemma TakenByWriter(s: State, m: Msg) returns (events: seq<Bearerbox.Event>, t: State)
    requires |s.boxes| > 0 && s.boxes[0] == Box(false, map[], None) && s.hands == map[] && m in s.queue
    ensures Bearerbox.Run(s, events, t)
    ensures t == s.(boxes := s.boxes[0 := Box(true, map[], None)], queue := s.queue - multiset{m},
                    hands := map[Writer(0) := Carrying(m)], place := s.place[m := InHand(Writer(0))])
  {
    var up, take := Bearerbox.Event.Reconnect(0, true), Take(0, m);
    var s1 := Bearerbox.Apply(s, up);
    assert s1 == s.(boxes := s.boxes[0 := Box(true, map[], None)]);
    t := Bearerbox.Apply(s1, take);
    RunCons(s1, take, [], t);
    RunCons(s, up, [take] + [], t);
    events := [up] + ([take] + []);
  }

  lemma Written(s: State, m: Msg) returns (events: seq<Bearerbox.Event>, t: State)
    requires |s.boxes| > 0 && s.boxes[0] == Box(true, map[], None) && s.hands == map[Writer(0) := Carrying(m)]
    ensures Bearerbox.Run(s, events, t)
    ensures t == s.(boxes := s.boxes[0 := Box(true, map[m.uuid := m], None)], hands := map[], place := s.place[m := InAcks(0)])
  {
    var register, done := Register(0, true), WriteDone(0);
    var s1 := Bearerbox.Apply(s, register);
    assert s1.boxes[0] == Box(true, map[m.uuid := m], Some(Write(m, true))) && s1.hands == map[];
    t := Bearerbox.Apply(s1, done);
    assert t.boxes == s.boxes[0 := Box(true, map[m.uuid := m], None)];
    RunCons(s1, done, [], t);
    RunCons(s, register, [done] + [], t);
    events := [register] + ([done] + []);
  }

  /** A bearerbox takes the message and refuses it for now. */
  lemma RefusedForNow(s: State, m: Msg) returns (events: seq<Bearerbox.Event>, t: State)
    requires |s.boxes| > 0 && s.boxes[0] == Box(false, map[], None) && s.hands == map[] && m in s.queue
    ensures Bearerbox.Run(s, events, t) && t.place == s.place[m := Completed(ESME_RSYSERR)]
    ensures t.table == s.table && t.accepted == s.accepted && t.delivered == s.delivered && t.refused == s.refused
    ensures t.store == s.store
  {
    var first, s1 := TakenByWriter(s, m);
    var second, s2 := Written(s1, m);
    var third, s3 := NackedForNow(s2, m);
    RunConcat(s1, second, s2, third, s3);
    RunConcat(s, first, s1, second + third, s3);
    events, t := first + (second + third), s3;
  }

  lemma NackedForNow(s: State, m: Msg) returns (events: seq<Bearerbox.Event>, t: State)
    requires |s.boxes| > 0 && s.boxes[0] == Box(true, map[m.uuid := m], None) && s.hands == map[]
    ensures Bearerbox.Run(s, events, t) && t.store == s.store && t.place == s.place[m := Completed(ESME_RSYSERR)]
    ensures t.table == s.table && t.accepted == s.accepted && t.delivered == s.delivered && t.refused == s.refused
  {
    var ack, callback := Bearerbox.Event.Ack(0, m.uuid, AckFailedTmp), Callback(Reader(0));
    var s1 := Bearerbox.Apply(s, ack);
    assert s1.hands == map[Reader(0) := Finishing(m, ESME_RSYSERR)];
    t := Bearerbox.Apply(s1, callback);
    RunCons(s1, callback, [], t);
    RunCons(s, ack, [callback] + [], t);
    events := [ack] + ([callback] + []);
  }

  lemma RunConcat(s: State, first: seq<Bearerbox.Event>, mid: State, rest: seq<Bearerbox.Event>, t: State)
    requires Bearerbox.Run(s, first, mid) && Bearerbox.Run(mid, rest, t)
    ensures Bearerbox.Run(s, first + rest, t)
    decreases |first|
  {
    if first == [] {
      assert first + rest == rest;
    } else {
      RunConcat(Bearerbox.Apply(s, first[0]), first[1..], mid, rest, t);
      assert (first + rest)[1..] == first[1..] + rest;
    }
  }

  lemma RobbingRun(s: State, n: Id, mo: Row, m: Msg) returns (events: seq<Bearerbox.Event>, t: State)
    requires Untouched(s, n) && mo.smsType == Mo && s.batch == map[] && s.place == map[] && Parked(s, n)
    requires m.origin == FromRow(n) && m.uuid == UuidOf(s, n) && m.service == s.store.rows[(s.table, n)].service
    ensures Bearerbox.Run(s, events, t)
    ensures t.table == s.table && t.boxes == s.boxes && t.hands == s.hands && t.queue == s.queue + multiset{m}
    ensures t.place == map[m := InQueue] && t.store.rows == s.store.rows - {(s.table, n)}
    ensures t.accepted == s.accepted && t.delivered == s.delivered && t.refused == s.refused
  {
    var first, s1 := MoComesAndGoes(s, n, mo);
    var second, s2 := RobbedInTheQueue(s1, n, m);
    RunConcat(s, first, s1, second, s2);
    events, t := first + second, s2;
  }

  lemma LosingRun(s: State, n: Id, mo: Row, m: Msg) returns (events: seq<Bearerbox.Event>, t: State)
    requires Untouched(s, n) && mo.smsType == Mo && s.batch == map[] && s.place == map[] && Parked(s, n)
    requires m.origin == FromRow(n) && m.uuid == UuidOf(s, n) && m.service == s.store.rows[(s.table, n)].service
    requires |s.boxes| > 0 && s.boxes[0] == Box(false, map[], None) && s.hands == map[]
    ensures Bearerbox.Run(s, events, t) && t.table == s.table && t.store.rows == s.store.rows - {(s.table, n)}
    ensures t.place == map[m := Completed(ESME_RSYSERR)]
    ensures t.accepted == s.accepted && t.delivered == s.delivered && t.refused == s.refused
  {
    var first, s1 := RobbingRun(s, n, mo, m);
    var rest, s2 := RefusedForNow(s1, m);
    RunConcat(s, first, s1, rest, s2);
    events, t := first + rest, s2;
    assert t.place == map[m := Completed(ESME_RSYSERR)];
  }

  /** From every such state there is a run that loses the message for good: an MO of two parts under the same
      number is released twice, and the requeued message is refused for now. In the end the server has answered
      for it, nobody delivered or refused it, no row has it, and no place holds it. */
  lemma SecondReleaseLosesAMessage(s: State, n: Id, mo: Row) returns (events: seq<Bearerbox.Event>, t: State)
    requires Exposed(s, n) && mo.smsType == Mo
    ensures Bearerbox.Run(s, events, t) && var u := UuidOf(s, n);
            && u in t.accepted && u !in t.delivered && u !in t.refused
            && (forall i :: Parked(t, i) ==> UuidOf(t, i) != u) && (forall o :: Live(t, o) ==> o.uuid != u)
  {
    NoClaims(s.store);
    events, t := LosingRun(s, n, mo, Msg(0, UuidOf(s, n), s.store.rows[(s.table, n)].service, FromRow(n)));
    assert forall i :: Parked(t, i) ==> i != n && Parked(s, i) && UuidOf(t, i) == UuidOf(s, i);
  }

  // ------------------------------------------------------------------ a DELETE that fails

  /** The callback of a stored row whose DELETE fails: the claim is dropped and the row stays. */
  ghost function AfterFailedDelete(s: State, t: Thread): State
    requires Bearerbox.Enabled(s, Callback(t)) && s.hands[t].m.origin.FromRow? && IsFinal(s.hands[t].status)
  {
    Bearerbox.Apply(s, Callback(t)).(store := Remove(s.store, s.hands[t].m.origin.id, true))
  }

  /** The uuids stay unique exactly when no other row that stays, no message on its way and no row about to be
      produced has this one: when the message was not parked again under another number. */
  lemma FailedDeleteIff(s: State, t: Thread)
    requires Inv(s) && Bearerbox.Enabled(s, Callback(t)) && s.hands[t].m.origin.FromRow? && IsFinal(s.hands[t].status)
    requires Parked(s, s.hands[t].m.origin.id)
    ensures var u := s.hands[t].m.uuid;
            UuidsUnique(AfterFailedDelete(s, t)) <==>
            && (forall i :: Kept(s, i) ==> UuidOf(s, i) != u)
            && (forall o :: Active(s, o) ==> o.uuid != u)
            && (forall i :: i in s.batch ==> s.batch[i].uuid != u)
  {
    var n, m := AfterFailedDelete(s, t), s.hands[t].m;
    var id := m.origin.id;
    FailedDeleteStatus(s, t);
    if UuidsUnique(n) {
      forall i | Kept(s, i) ensures UuidOf(s, i) != m.uuid { assert Kept(n, i) && Kept(n, id); }
      forall o | Active(s, o) ensures o.uuid != m.uuid { assert Active(n, o) && Kept(n, id); }
      forall i | i in s.batch ensures s.batch[i].uuid != m.uuid { assert i in n.batch && Kept(n, id); }
    }
  }

  lemma FailedDeleteStatus(s: State, t: Thread)
    requires Inv(s) && Bearerbox.Enabled(s, Callback(t)) && s.hands[t].m.origin.FromRow? && IsFinal(s.hands[t].status)
    requires Parked(s, s.hands[t].m.origin.id)
    ensures var n, m := AfterFailedDelete(s, t), s.hands[t].m;
            var id := m.origin.id;
            && n.batch == s.batch && id !in s.batch && UuidOf(s, id) == m.uuid && Doomed(s, id)
            && (forall o :: Active(n, o) <==> Active(s, o)) && (forall o :: Active(s, o) ==> o.origin != FromRow(id))
            && (forall i :: Parked(n, i) <==> Parked(s, i)) && (forall i :: Parked(s, i) ==> UuidOf(n, i) == UuidOf(s, i))
            && (forall i :: Kept(n, i) <==> Kept(s, i) || i == id)
  {
    var n, m := AfterFailedDelete(s, t), s.hands[t].m;
    var id := m.origin.id;
    assert Holds(s, m, InHand(t)) && Live(s, m);
    assert t in s.hands && s.hands[t].Finishing? && s.hands[t].m.origin == FromRow(id) && IsFinal(s.hands[t].status);
    forall o ensures Active(n, o) <==> Active(s, o) {}
    assert !Active(s, m);
    forall d | d in n.hands && n.hands[d].Finishing? ensures n.hands[d].m.origin != FromRow(id) {
      assert Holds(s, s.hands[d].m, InHand(d));
    }
    forall i | i != id ensures Doomed(n, i) <==> Doomed(s, i) {
      if Doomed(s, i) {
        var d :| d in s.hands && s.hands[d].Finishing? && s.hands[d].m.origin == FromRow(i) && IsFinal(s.hands[d].status);
        assert d in n.hands && n.hands[d] == s.hands[d];
      }
    }
  }
}
