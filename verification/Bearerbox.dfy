/** The outbound MT protocol: submitters, one writer and one reader per bearerbox and the requeue
    thread move messages between the shared outbound queue, their own hands, the open_acks of each
    bearerbox and the fallback store. Every lock-protected section is one step. */
module Bearerbox {
  import opened Common
  import opened SqlStore

  /** Whom the callback of a message answers: a client's submit, or the claim on a stored row. */
  datatype Origin = FromSubmit | FromRow(id: Id)

  /** A message with its callback context; `uuid` is the key it uses in open_acks. */
  datatype Msg = Msg(ctx: nat, uuid: Uuid, service: string, origin: Origin)

  datatype Thread = Writer(box: nat) | Reader(box: nat) | Submitter(n: nat)

  /** What a thread holds between two locked sections: a message it still has to place, or one
      whose callback it is about to run with a status. */
  datatype Hand = Carrying(m: Msg) | Finishing(m: Msg, status: int)

  /** A write in progress and its outcome. The message is already in open_acks, so an ack may
      overtake the return of a successful write. */
  datatype Write = Write(m: Msg, ok: bool)

  datatype Box = Box(alive: bool, openAcks: map<Uuid, Msg>, writing: Option<Write>)

  datatype AckKind = AckBuffered | AckSuccess | AckFailed | AckFailedTmp | AckUnknown

  function AckStatus(kind: AckKind): int {
    match kind
    case AckBuffered => ESME_ROK
    case AckSuccess => ESME_ROK
    case AckFailed => ESME_RSUBMITFAIL
    case AckFailedTmp => ESME_RSYSERR
    case AckUnknown => ESME_RSYSERR
  }

  datatype Place = InQueue | InHand(t: Thread) | InAcks(b: nat) | Completed(status: int)

  /** `batch` is what the requeue thread has claimed and not yet produced, as it was read. The last five fields
      are history: the completed callbacks in order, the uuids a bearerbox acknowledged and refused for
      good, the uuids the server has answered for with status 0, and where each message went. */
  datatype State = State(
    table: string, queue: multiset<Msg>, boxes: seq<Box>, hands: map<Thread, Hand>, batch: map<Id, Row>,
    store: Store,
    log: seq<(Msg, int)>, delivered: set<Uuid>, refused: set<Uuid>, accepted: set<Uuid>,
    place: map<Msg, Place>)

  datatype Event =
    | Submit(n: nat, m: Msg)
    | Offer(t: Thread, online: bool, parked: Option<Id>)
    | Take(b: nat, m: Msg)
    | Register(b: nat, ok: bool)
    | WriteDone(b: nat)
    | Ack(b: nat, uuid: Uuid, kind: AckKind)
    | Callback(t: Thread)
    | Drop(b: nat)
    | FlushOne(b: nat, uuid: Uuid)
    | Reconnect(b: nat, ok: bool)
    | FetchStored(ids: seq<Id>)
    | Produce(id: Id, m: Msg)
    | StorePrimary(id: Id, row: Row)
    | StaleRelease(claim: Key)
    | OtherStoreUse(e: SqlStore.Event)

  /** An MT row of the fallback table. */
  predicate Parked(s: State, id: Id) {
    (s.table, id) in s.store.rows && s.store.rows[(s.table, id)].smsType == MtPush
  }

  function UuidOf(s: State, id: Id): Uuid
    requires Parked(s, id)
  {
    s.store.rows[(s.table, id)].uuid
  }

  ghost predicate FreshCtx(s: State, m: Msg) {
    m !in s.place && forall o :: o in s.place ==> o.ctx != m.ctx
  }

  ghost predicate FreshUuid(s: State, u: Uuid) {
    && (forall o :: o in s.place ==> o.uuid != u)
    && (forall id :: Parked(s, id) ==> UuidOf(s, id) != u)
    && (forall id :: id in s.batch ==> s.batch[id].uuid != u)
  }

  /** The guard of each step. `Submit` and `StorePrimary` assume a new uuid; `Ack` assumes that a message whose write
      returns -1 is not acknowledged; the rest is what the locks and threads enforce. The result of
      looking for an online bearerbox is free, as the scan may be stale when it is acted on. `StorePrimary` is a
      store-primary account's message, where that table is also the fallback table; `StaleRelease` is the
      repeated release of an MO or report sent in parts. */
  ghost predicate Enabled(s: State, e: Event) {
    match e
    case Submit(n, m) =>
      Submitter(n) !in s.hands && FreshCtx(s, m) && m.origin == FromSubmit && FreshUuid(s, m.uuid)
    case Offer(t, online, parked) =>
      && t in s.hands && s.hands[t].Carrying?
      && (!online && parked.Some? ==> (s.table, parked.value) !in s.store.used)
    case Take(b, m) =>
      b < |s.boxes| && Writer(b) !in s.hands && s.boxes[b].writing.None? && m in s.queue
    case Register(b, _) =>
      && b < |s.boxes| && s.boxes[b].alive && s.boxes[b].writing.None?
      && Writer(b) in s.hands && s.hands[Writer(b)].Carrying?
    case WriteDone(b) => b < |s.boxes| && s.boxes[b].writing.Some?
    case Ack(b, uuid, _) =>
      && b < |s.boxes| && Reader(b) !in s.hands
      && (var w := s.boxes[b].writing; w.Some? && !w.value.ok ==> w.value.m.uuid != uuid)
    case Callback(t) => t in s.hands && s.hands[t].Finishing?
    case Drop(b) => b < |s.boxes| && s.boxes[b].writing.None?
    case FlushOne(b, uuid) =>
      && b < |s.boxes| && !s.boxes[b].alive && s.boxes[b].writing.None? && Reader(b) !in s.hands
      && uuid in s.boxes[b].openAcks
    case Reconnect(b, _) =>
      && b < |s.boxes| && !s.boxes[b].alive && s.boxes[b].writing.None? && Reader(b) !in s.hands
      && s.boxes[b].openAcks == map[]
    case FetchStored(ids) => s.batch == map[] && Selectable(s.store, s.table, MtPush, "", ids)
    case Produce(id, m) =>
      id in s.batch && FreshCtx(s, m) && m.origin == FromRow(id) && m.uuid == s.batch[id].uuid
      && m.service == s.batch[id].service
    case StorePrimary(id, row) => (s.table, id) !in s.store.used && row.smsType == MtPush && FreshUuid(s, row.uuid)
    case StaleRelease(claim) => SqlStore.Enabled(s.store, Rerelease(claim))
    case OtherStoreUse(e) =>
      && SqlStore.Enabled(s.store, e)
      && match e {
           case Add(table, _, row) => table != s.table || row.smsType != MtPush
           case Fetch(from, smsType, _, _) => from != s.table || smsType != MtPush
           case Release(claim, _) =>
             claim.0 != s.table || (claim in s.store.rows && s.store.rows[claim].smsType != MtPush)
           case Rerelease(_) => false
         }
  }

  /** Every fetched row, by its number. */
  function BatchOf(s: State, ids: seq<Id>): map<Id, Row>
    requires forall id :: id in ids ==> (s.table, id) in s.store.rows
  {
    map id | id in ids :: s.store.rows[(s.table, id)]
  }

  function IdSet(ids: seq<Id>): set<Id> {
    set id | id in ids
  }

  /** The statuses after which a requeued message's row is deleted. */
  predicate IsFinal(status: int) {
    status == ESME_ROK || status == ESME_RSUBMITFAIL
  }

  function AfterCallback(store: Store, m: Msg, status: int): Store {
    if m.origin.FromRow? && IsFinal(status) then Remove(store, m.origin.id, false) else store
  }

  ghost function Apply(s: State, e: Event): State
    requires Enabled(s, e)
  {
    match e
    case Submit(n, m) =>
      s.(hands := s.hands[Submitter(n) := Carrying(m)], place := s.place[m := InHand(Submitter(n))])
    case Offer(t, online, parked) =>
      var m := s.hands[t].m;
      if online then
        s.(queue := s.queue + multiset{m}, hands := s.hands - {t}, place := s.place[m := InQueue])
      else if parked.Some? then
        s.(store := Insert(s.store, s.table, parked.value, Row(MtPush, m.service, m.uuid)),
           hands := s.hands[t := Finishing(m, ESME_ROK)])
      else s.(hands := s.hands[t := Finishing(m, ESME_RSYSERR)])
    case Take(b, m) =>
      s.(queue := s.queue - multiset{m}, hands := s.hands[Writer(b) := Carrying(m)],
         place := s.place[m := InHand(Writer(b))])
    case Register(b, ok) =>
      var m := s.hands[Writer(b)].m;
      var box := s.boxes[b];
      s.(boxes := s.boxes[b := box.(openAcks := box.openAcks[m.uuid := m], writing := Some(Write(m, ok)))],
         hands := s.hands - {Writer(b)}, place := s.place[m := InAcks(b)])
    case WriteDone(b) =>
      var box := s.boxes[b];
      var w := box.writing.value;
      if w.ok then s.(boxes := s.boxes[b := box.(writing := None)])
      else s.(boxes := s.boxes[b := Box(false, box.openAcks - {w.m.uuid}, None)],
              hands := s.hands[Writer(b) := Carrying(w.m)], place := s.place[w.m := InHand(Writer(b))])
    case Ack(b, uuid, kind) =>
      var box := s.boxes[b];
      if uuid !in box.openAcks then s
      else
        var m := box.openAcks[uuid];
        s.(boxes := s.boxes[b := box.(openAcks := box.openAcks - {uuid})],
           hands := s.hands[Reader(b) := Finishing(m, AckStatus(kind))],
           place := s.place[m := InHand(Reader(b))],
           delivered := if AckStatus(kind) == ESME_ROK then s.delivered + {uuid} else s.delivered,
           refused := if AckStatus(kind) == ESME_RSUBMITFAIL && m.origin.FromRow? then s.refused + {uuid} else s.refused)
    case Callback(t) =>
      var Finishing(m, status) := s.hands[t];
      s.(hands := s.hands - {t}, store := AfterCallback(s.store, m, status), log := s.log + [(m, status)],
         accepted := if m.origin.FromSubmit? && status == ESME_ROK then s.accepted + {m.uuid} else s.accepted,
         place := s.place[m := Completed(status)])
    case Drop(b) => s.(boxes := s.boxes[b := s.boxes[b].(alive := false)])
    case FlushOne(b, uuid) =>
      var box := s.boxes[b];
      var m := box.openAcks[uuid];
      s.(boxes := s.boxes[b := box.(openAcks := box.openAcks - {uuid})],
         hands := s.hands[Reader(b) := Finishing(m, ESME_RSYSERR)], place := s.place[m := InHand(Reader(b))])
    case Reconnect(b, ok) => s.(boxes := s.boxes[b := s.boxes[b].(alive := ok)])
    case FetchStored(ids) =>
      s.(batch := BatchOf(s, ids), store := ClaimAll(s.store, s.table, ids))
    case Produce(id, m) =>
      s.(batch := s.batch - {id}, queue := s.queue + multiset{m}, place := s.place[m := InQueue])
    case StorePrimary(id, row) =>
      s.(store := Insert(s.store, s.table, id, row), accepted := s.accepted + {row.uuid})
    case StaleRelease(claim) => s.(store := Remove(s.store, claim.1, false))
    case OtherStoreUse(e) => s.(store := SqlStore.Apply(s.store, e))
  }

  ghost predicate Run(s: State, events: seq<Event>, t: State)
    decreases |events|
  {
    if events == [] then s == t
    else Enabled(s, events[0]) && Run(Apply(s, events[0]), events[1..], t)
  }

  /** A server that has just started, over a store that may hold messages accepted earlier. */
  ghost predicate Initial(s: State) {
    && s.queue == multiset{} && s.hands == map[] && s.batch == map[] && s.log == [] && s.place == map[]
    && s.delivered == {} && s.refused == {}
    && (forall b :: 0 <= b < |s.boxes| ==> s.boxes[b] == Box(false, map[], None))
    && SqlStore.Valid(s.store) && s.store.claims == {}
    && (forall i, j :: Parked(s, i) && Parked(s, j) && UuidOf(s, i) == UuidOf(s, j) ==> i == j)
    && (forall u :: u in s.accepted ==> exists id :: Parked(s, id) && UuidOf(s, id) == u)
  }

  // ------------------------------------------------------------------ where a message is

  /** The containers themselves, without the history, hold `m` at `p`. */
  ghost predicate Holds(s: State, m: Msg, p: Place) {
    match p
    case InQueue => m in s.queue
    case InHand(t) => t in s.hands && s.hands[t].m == m
    case InAcks(b) => b < |s.boxes| && m.uuid in s.boxes[b].openAcks && s.boxes[b].openAcks[m.uuid] == m
    case Completed(status) => (m, status) in s.log
  }

  /** The history says exactly where the containers hold each message. */
  ghost predicate PlacesAgree(s: State) {
    && (forall m :: m in s.place ==> Holds(s, m, s.place[m]))
    && (forall m, p :: Holds(s, m, p) ==> m in s.place && s.place[m] == p)
  }

  /** No container holds a message twice, and no two messages share a callback context. */
  ghost predicate NoDuplicates(s: State) {
    && (forall m :: m in s.queue ==> s.queue[m] == 1)
    && (forall b, u :: 0 <= b < |s.boxes| && u in s.boxes[b].openAcks ==> s.boxes[b].openAcks[u].uuid == u)
    && (forall i, j :: 0 <= i < j < |s.log| ==> s.log[i].0 != s.log[j].0)
    && (forall m, o :: m in s.place && o in s.place && m.ctx == o.ctx ==> m == o)
  }

  /** A writer inside its write section holds nothing else, and a message whose write is going to
      fail stays in open_acks until the writer takes it back. */
  ghost predicate WritersAgree(s: State) {
    forall b :: 0 <= b < |s.boxes| && s.boxes[b].writing.Some? ==>
      var w := s.boxes[b].writing.value;
      Writer(b) !in s.hands && (!w.ok ==> Holds(s, w.m, InAcks(b)))
  }

  ghost predicate Live(s: State, m: Msg) {
    m in s.place && !s.place[m].Completed?
  }

  /** Live and still on its way to a bearerbox: not merely waiting for its callback to run. */
  ghost predicate Active(s: State, m: Msg) {
    Live(s, m) && (s.place[m].InHand? ==> s.place[m].t in s.hands && s.hands[s.place[m].t].Carrying?)
  }

  /** A row whose deletion is certain: a callback about to run will remove it. */
  ghost predicate Doomed(s: State, id: Id) {
    exists t :: t in s.hands && s.hands[t].Finishing? && s.hands[t].m.origin == FromRow(id)
                && IsFinal(s.hands[t].status)
  }

  /** A row that will outlive the callbacks now in progress. */
  ghost predicate Kept(s: State, id: Id) {
    Parked(s, id) && !Doomed(s, id)
  }

  ghost predicate Claimed(s: State, id: Id) {
    (s.table, id) in s.store.claims
  }

  /** A number whose row has been deleted. */
  predicate Gone(s: State, id: Id) {
    (s.table, id) in s.store.used && (s.table, id) !in s.store.rows
  }

  /** The row of a message on its way, or in the batch, is claimed and as it was read, unless a release that was
      not its own has deleted it. */
  ghost predicate RowsAgree(s: State) {
    && SqlStore.Valid(s.store)
    && (forall m :: Live(s, m) && m.origin.FromRow? ==>
          var id := m.origin.id;
          id !in s.batch && (Gone(s, id) || (Parked(s, id) && UuidOf(s, id) == m.uuid && Claimed(s, id))))
    && (forall m, o :: Live(s, m) && Live(s, o) && m.origin.FromRow? && m.origin == o.origin ==> m == o)
    && (forall id :: id in s.batch ==>
          Gone(s, id) || (Parked(s, id) && UuidOf(s, id) == s.batch[id].uuid && Claimed(s, id)))
  }

  ghost predicate UuidsUnique(s: State) {
    && (forall m, o :: Active(s, m) && Active(s, o) && m.uuid == o.uuid ==> m == o)
    && (forall i, j :: Kept(s, i) && Kept(s, j) && UuidOf(s, i) == UuidOf(s, j) ==> i == j)
    && (forall m, id :: Active(s, m) && Kept(s, id) && UuidOf(s, id) == m.uuid ==> m.origin == FromRow(id))
    && (forall m, id :: Active(s, m) && id in s.batch ==> s.batch[id].uuid != m.uuid)
    && (forall i, j :: i in s.batch && j in s.batch && s.batch[i].uuid == s.batch[j].uuid ==> i == j)
    && (forall i, j :: i in s.batch && Kept(s, j) && UuidOf(s, j) == s.batch[i].uuid ==> i == j)
  }

  /** The uuid was delivered, was refused for good, or has a row that stays. */
  ghost predicate AccountedFor(s: State, u: Uuid) {
    u in s.delivered || u in s.refused || exists id :: Kept(s, id) && UuidOf(s, id) == u
  }

  /** The server has answered for the uuid with status 0, or is about to. */
  ghost predicate Owed(s: State, u: Uuid) {
    u in s.accepted
    || exists t :: t in s.hands && s.hands[t].Finishing? && s.hands[t].status == ESME_ROK && s.hands[t].m.uuid == u
  }

  ghost predicate Inv(s: State) {
    PlacesAgree(s) && NoDuplicates(s) && WritersAgree(s) && RowsAgree(s) && UuidsUnique(s)
  }
}
