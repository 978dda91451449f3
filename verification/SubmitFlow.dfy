/** What becomes of one client's submit_sm and data_sm requests: the responses, and the prepaid credit. */
module SubmitFlow {
  import opened Common
  import opened Addresses

  const ESME_RINVESMCLASS: int := 0x43
  const ESME_RINVTLVVAL: int := 0xC4

  datatype Kind = SubmitSm | DataSm

  /** The parts of a request that decide what is done with it. `segmented` says that the catenation TLVs are
      present (and the client's version allows them), `udhi` that a user data header is announced. */
  datatype Request = Request(kind: Kind, seqNo: int, source: Option<string>, sourceTon: int,
                             dest: Option<string>, destTon: int, segmented: bool, udhi: bool, body: seq<nat>)

  datatype Response = Response(kind: Kind, seqNo: int, status: int, messageId: Option<string>)

  /** An account as bound. Costs and credit are in millionths, the precision of the store's updates. */
  datatype Account = Account(transmits: bool, simulate: bool, temporaryEvery: nat, permanentEvery: nat,
                             deliverEvery: nat, moEvery: nat, dlrFail: bool, prepaid: bool, storePrimary: bool,
                             defaultSmsc: bool, defaultCost: nat)

  /** A response waiting for the end of routing or of delivery; `uuid` is its message's. */
  datatype Context = Context(response: Response, uuid: string, hasSmsc: bool)

  datatype RouteStatus = RouteStatus(status: int, cost: nat, parts: nat)

  /** A message made of a request, by the parts that tell it from others. */
  datatype Msg = Msg(uuid: string, sender: Option<string>, receiver: Option<string>)

  datatype Conversion = Rejected(reason: int) | Accepted(msg: Msg)

  /** What an account that simulates gets sent besides the response. */
  datatype Simulated = SimulatedReport(msg: Msg, fails: bool) | SimulatedMo(msg: Msg)

  // ------------------------------------------------------------------ conversion

  function AddrStatus(addr: Option<string>, ton: int): int {
    match addr case None => ESME_ROK case Some(a) => Converted(a, ton).0
  }

  function Edited(addr: Option<string>, ton: int): Option<string> {
    match addr case None => None case Some(a) => Some(Converted(a, ton).1)
  }

  /** A user data header longer than the body it is part of. */
  predicate HeaderTooLong(r: Request) {
    r.udhi && r.body != [] && r.body[0] + 1 > |r.body|
  }

  /** smpp_submit_sm_to_msg and smpp_data_sm_to_msg. */
  function Convert(r: Request, uuid: string): (c: Conversion)
    ensures c.Rejected? ==> c.reason != ESME_ROK
    ensures c.Rejected? <==> AddrStatus(r.source, r.sourceTon) != ESME_ROK || r.dest.None?
                             || AddrStatus(r.dest, r.destTon) != ESME_ROK || (r.segmented && r.udhi) || HeaderTooLong(r)
  {
    if AddrStatus(r.source, r.sourceTon) != ESME_ROK then Rejected(AddrStatus(r.source, r.sourceTon))
    else if r.dest.None? then Rejected(ESME_RINVDSTADR)
    else if AddrStatus(r.dest, r.destTon) != ESME_ROK then Rejected(AddrStatus(r.dest, r.destTon))
    else if r.segmented && r.udhi then Rejected(ESME_RINVTLVVAL)
    else if HeaderTooLong(r) then Rejected(ESME_RINVESMCLASS)
    else Accepted(Msg(uuid, Edited(r.source, r.sourceTon), Edited(r.dest, r.destTon)))
  }

  /** Each refusal and its reason, first come first; and the message that is made otherwise. */
  lemma ConversionTable(r: Request, uuid: string)
    ensures var c := Convert(r, uuid);
            var badSource := r.source.Some? && Converted(r.source.value, r.sourceTon).0 != ESME_ROK;
            var badDest := r.dest.Some? && Converted(r.dest.value, r.destTon).0 != ESME_ROK;
            && (badSource ==> c == Rejected(ESME_RINVSRCADR))
            && (!badSource && r.dest.None? ==> c == Rejected(ESME_RINVDSTADR))
            && (!badSource && badDest ==> c == Rejected(ESME_RINVSRCADR))
            && (!badSource && r.dest.Some? && !badDest ==>
                  if r.segmented && r.udhi then c == Rejected(ESME_RINVTLVVAL)
                  else if r.udhi && |r.body| > 0 && r.body[0] >= |r.body| then c == Rejected(ESME_RINVESMCLASS)
                  else && c.Accepted? && c.msg.uuid == uuid && c.msg.receiver == Some(Converted(r.dest.value, r.destTon).1)
                       && c.msg.sender == if r.source.None? then None else Some(Converted(r.source.value, r.sourceTon).1))
  {
    if r.source.Some? { RefusedIff(r.source.value, r.sourceTon); }
    if r.dest.Some? { RefusedIff(r.dest.value, r.destTon); }
  }

  // ------------------------------------------------------------------ the specification of the handlers

  datatype Step = Answer(response: Response) | Wait(context: Context)

  predicate Every(n: nat, count: nat) {
    n != 0 && count % n == 0
  }

  function Fail(r: Request, status: int): Step {
    Answer(Response(r.kind, r.seqNo, status, None))
  }

  /** The handling of a request up to its answer or its routing. */
  function Handle(a: Account, r: Request, throttled: bool, count: nat, uuid: string): Step {
    if !a.transmits then Fail(r, ESME_RINVBNDSTS)
    else if throttled then Fail(r, ESME_RTHROTTLED)
    else if r.kind.SubmitSm? && a.simulate && Every(a.temporaryEvery, count) then Fail(r, ESME_RMSGQFUL)
    else if r.kind.SubmitSm? && a.simulate && Every(a.permanentEvery, count) then Fail(r, ESME_RSUBMITFAIL)
    else match Convert(r, uuid)
      case Rejected(reason) => Fail(r, reason)
      case Accepted(m) =>
        if r.kind.SubmitSm? && a.simulate then Answer(Response(r.kind, r.seqNo, ESME_ROK, Some(m.uuid)))
        else Wait(Context(Response(r.kind, r.seqNo, ESME_ROK, Some(m.uuid)), m.uuid, a.defaultSmsc))
  }

  /** Every outcome by what decides it, first come first: a bind that may not send, the throughput, the two simulated
      failures at their frequencies, the conversion; then a simulating account answers a submit_sm with success, and
      every other request waits for its route. */
  lemma HandlingTable(a: Account, r: Request, throttled: bool, count: nat, uuid: string)
    ensures var step, c, plain := Handle(a, r, throttled, count, uuid), Convert(r, uuid), Response(r.kind, r.seqNo, ESME_ROK, None);
            && (!a.transmits ==> step == Answer(plain.(status := ESME_RINVBNDSTS)))
            && (a.transmits && throttled ==> step == Answer(plain.(status := ESME_RTHROTTLED)))
            && (a.transmits && !throttled ==>
                  var simulates := a.simulate && r.kind.SubmitSm?;
                  if simulates && a.temporaryEvery > 0 && count % a.temporaryEvery == 0 then
                    step == Answer(plain.(status := ESME_RMSGQFUL))
                  else if simulates && a.permanentEvery > 0 && count % a.permanentEvery == 0 then
                    step == Answer(plain.(status := ESME_RSUBMITFAIL))
                  else if c.Rejected? then step == Answer(plain.(status := c.reason))
                  else if simulates then step == Answer(plain.(messageId := Some(uuid)))
                  else step == Wait(Context(plain.(messageId := Some(uuid)), uuid, a.defaultSmsc)))
  {
    ConversionTable(r, uuid);
  }

  /** Is the request one of those that an account without real delivery gets answered with success? */
  predicate Simulates(a: Account, r: Request, throttled: bool, count: nat, uuid: string) {
    && r.kind.SubmitSm? && a.transmits && !throttled && a.simulate && Convert(r, uuid).Accepted?
    && !Every(a.temporaryEvery, count) && !Every(a.permanentEvery, count)
  }

  /** The reply to `m` that the simulation invents. */
  function Reply(m: Msg): Msg {
    m.(sender := m.receiver, receiver := m.sender)
  }

  function Simulation(a: Account, r: Request, throttled: bool, count: nat, uuid: string): seq<Simulated> {
    if !Simulates(a, r, throttled, count, uuid) then []
    else
      var m := Convert(r, uuid).msg;
      (if Every(a.deliverEvery, count) then [SimulatedReport(m, a.dlrFail)] else [])
      + (if Every(a.moEvery, count) then [SimulatedMo(Reply(m))] else [])
  }

  /** A simulated report and reply come with a success only, each at its own frequency; the reply goes back. */
  lemma SimulationTable(a: Account, r: Request, throttled: bool, count: nat, uuid: string)
    ensures var made := Simulation(a, r, throttled, count, uuid);
            var answered := Handle(a, r, throttled, count, uuid) == Answer(Response(SubmitSm, r.seqNo, ESME_ROK, Some(uuid)));
            && ((exists x :: x in made && x.SimulatedReport?) <==> answered && a.deliverEvery > 0 && count % a.deliverEvery == 0)
            && ((exists x :: x in made && x.SimulatedMo?) <==> answered && a.moEvery > 0 && count % a.moEvery == 0)
            && (forall x :: x in made ==>
                  var m := Convert(r, uuid).msg;
                  && x.msg.uuid == uuid
                  && (x.SimulatedReport? ==> x.msg == m && x.fails == a.dlrFail)
                  && (x.SimulatedMo? ==> x.msg.sender == m.receiver && x.msg.receiver == m.sender))
            && |made| <= 2 && (|made| == 2 ==> made[0].SimulatedReport?)
  {
    ConversionTable(r, uuid);
    if Simulates(a, r, throttled, count, uuid) {
      var m, made := Convert(r, uuid).msg, Simulation(a, r, throttled, count, uuid);
      if Every(a.deliverEvery, count) { assert made[0] == SimulatedReport(m, a.dlrFail); }
      if Every(a.moEvery, count) { assert made[|made| - 1] == SimulatedMo(Reply(m)); }
    }
  }

  /** smpp_queues_callback_submit_sm and its data_sm twin. */
  function Completed(r: Response, status: int): Response {
    if status != ESME_ROK then r.(messageId := None, status := status) else r.(status := status)
  }

  /** What one message of an account costs once routed. */
  function Price(a: Account, rs: RouteStatus): nat {
    rs.parts * Rate(a, rs)
  }

  /** The route's cost, or the account's default cost when no route was found. */
  function Rate(a: Account, rs: RouteStatus): nat {
    if rs.status == ESME_ROK then rs.cost else a.defaultCost
  }

  /** May the message go at all? It needs a route, or an SMSC given in advance. */
  predicate Routable(c: Context, rs: RouteStatus) {
    rs.status == ESME_ROK || c.hasSmsc
  }

  /** The first half of a deduction, the SELECT: is the balance readable, and enough? */
  predicate Covered(credit: int, cost: nat, readable: bool) {
    readable && credit >= cost
  }

  function Refused(c: Context, status: int): Step {
    Answer(c.response.(messageId := None, status := status))
  }

  /** A message that may go: into the store, or with its context to a bearerbox. */
  function SentOn(a: Account, c: Context, stored: bool): Step {
    if a.storePrimary then Answer(Completed(c.response, if stored then ESME_ROK else ESME_RSYSERR)) else Wait(c)
  }

  // ------------------------------------------------------------------ whole runs

  /** The message that passed the charge, and what for. */
  datatype Charge = Charge(request: nat, parts: nat, rate: nat)

  datatype Deduction = Deduction(c: Context, rs: RouteStatus)

  /** Requests are numbered as they come. `answers` is what was enqueued for the client, in order, each with
      the request it answers; `deducting` are the contexts whose balance was read and not yet updated; `passed`
      are the requests whose message was sent on, `simulated` what the simulation thread is to send. */
  datatype State = State(requests: seq<Request>, routing: map<nat, Context>, deducting: map<nat, Deduction>,
                         boxed: map<nat, Context>, answers: seq<(nat, Response)>, credit: int, charges: seq<Charge>, passed: set<nat>,
                         simulated: seq<Simulated>)

  datatype Event =
    | Submit(r: Request, throttled: bool, count: nat, uuid: string)
    | RouteDone(id: nat, rs: RouteStatus, readable: bool, stored: bool)
    | Update(id: nat, updates: bool, stored: bool)
    | BoxDone(id: nat, status: int)

  ghost predicate Enabled(s: State, e: Event) {
    match e
    case Submit(_, _, _, _) => true
    case RouteDone(id, _, _, _) => id in s.routing
    case Update(id, _, _) => id in s.deducting
    case BoxDone(id, _) => id in s.boxed
  }

  /** The outcome for a context: its response is enqueued, or it goes to a bearerbox. */
  function Take(s: State, id: nat, step: Step): State {
    match step
    case Answer(response) => s.(answers := s.answers + [(id, response)])
    case Wait(c) => s.(boxed := s.boxed[id := c])
  }

  function Pass(s: State, id: nat, step: Step): State {
    Take(s.(passed := s.passed + {id}), id, step)
  }

  function Charge1(s: State, c: Charge): State {
    s.(credit := s.credit - Amount(c), charges := s.charges + [c])
  }

  ghost function Apply(a: Account, s: State, e: Event): State
    requires Enabled(s, e)
  {
    match e
    case Submit(r, throttled, count, uuid) =>
      var t := s.(requests := s.requests + [r], simulated := s.simulated + Simulation(a, r, throttled, count, uuid));
      (match Handle(a, r, throttled, count, uuid)
       case Answer(response) => t.(answers := s.answers + [(|s.requests|, response)])
       case Wait(c) => t.(routing := s.routing[|s.requests| := c]))
    case RouteDone(id, rs, readable, stored) =>
      var c, t := s.routing[id], s.(routing := s.routing - {id});
      if !Routable(c, rs) then Take(t, id, Refused(c, rs.status))
      else if !a.prepaid then Pass(t, id, SentOn(a, c, stored))
      else if !Covered(s.credit, Price(a, rs), readable) then Take(t, id, Refused(c, ESME_RSUBMITFAIL))
      else if Price(a, rs) == 0 then Pass(Charge1(t, Charge(id, rs.parts, Rate(a, rs))), id, SentOn(a, c, stored))
      else t.(deducting := s.deducting[id := Deduction(c, rs)])
    case Update(id, updates, stored) =>
      var d, t := s.deducting[id], s.(deducting := s.deducting - {id});
      if !updates then Take(t, id, Refused(d.c, ESME_RSUBMITFAIL))
      else Pass(Charge1(t, Charge(id, d.rs.parts, Rate(a, d.rs))), id, SentOn(a, d.c, stored))
    case BoxDone(id, status) =>
      s.(boxed := s.boxed - {id}, answers := s.answers + [(id, Completed(s.boxed[id].response, status))])
  }

  ghost predicate Run(a: Account, s: State, events: seq<Event>, t: State)
    decreases |events|
  {
    if events == [] then s == t
    else Enabled(s, events[0]) && Run(a, Apply(a, s, events[0]), events[1..], t)
  }

  function AnswersTo(answers: seq<(nat, Response)>, id: nat): nat {
    if answers == [] then 0
    else (if answers[|answers| - 1].0 == id then 1 else 0) + AnswersTo(answers[..|answers| - 1], id)
  }

  function Amount(c: Charge): nat {
    c.parts * c.rate
  }

  function Total(charges: seq<Charge>): int {
    if charges == [] then 0
    else Total(charges[..|charges| - 1]) + Amount(charges[|charges| - 1])
  }

  function Payers(charges: seq<Charge>): set<nat> {
    set c | c in charges :: c.request
  }

  lemma PayersSnoc(charges: seq<Charge>, c: Charge)
    ensures Payers(charges + [c]) == Payers(charges) + {c.request}
    ensures forall i :: 0 <= i < |charges| ==> charges[i].request in Payers(charges)
  {
    assert c in charges + [c];
  }

  /** A response belongs to its request and carries a message id exactly when its status is 0. */
  predicate Fits(r: Response, q: Request) {
    r.kind == q.kind && r.seqNo == q.seqNo && (r.messageId.Some? <==> r.status == ESME_ROK)
  }

  /** A waiting response is the one for its request and still has the message id. */
  predicate Waits(c: Context, q: Request) {
    c.response == Response(q.kind, q.seqNo, ESME_ROK, Some(c.uuid))
  }

  /** In how many places a context waits. */
  function Waiting(s: State, id: nat): nat {
    (if id in s.routing then 1 else 0) + (if id in s.deducting then 1 else 0) + (if id in s.boxed then 1 else 0)
  }

  ghost predicate Answered(s: State) {
    && (forall id :: 0 <= id < |s.requests| ==>
          AnswersTo(s.answers, id) + Waiting(s, id) == 1)
    && (forall id :: id in s.routing ==> id < |s.requests| && Waits(s.routing[id], s.requests[id]))
    && (forall id :: id in s.deducting ==> id < |s.requests| && Waits(s.deducting[id].c, s.requests[id]))
    && (forall id :: id in s.boxed ==> id < |s.requests| && Waits(s.boxed[id], s.requests[id]))
    && (forall k :: 0 <= k < |s.answers| ==>
          s.answers[k].0 < |s.requests| && Fits(s.answers[k].1, s.requests[s.answers[k].0]))
  }

  ghost predicate Charged(a: Account, s: State, initial: int) {
    && s.credit == initial - Total(s.charges)
    && (forall i, j :: 0 <= i < j < |s.charges| ==> s.charges[i].request != s.charges[j].request)
    && Payers(s.charges) == (if a.prepaid then s.passed else {})
    && (forall id :: id in s.passed ==> id < |s.requests| && id !in s.routing && id !in s.deducting)
    && (forall id :: id in s.deducting ==> id !in s.routing && a.prepaid)
  }

  ghost predicate Initial(s: State) {
    s.requests == [] && s.routing == map[] && s.deducting == map[] && s.boxed == map[] && s.answers == [] && s.credit >= 0
    && s.charges == [] && s.passed == {} && s.simulated == []
  }

  lemma NoAnswersYet(answers: seq<(nat, Response)>, id: nat)
    requires forall k :: 0 <= k < |answers| ==> answers[k].0 < id
    ensures AnswersTo(answers, id) == 0
  {
    if answers != [] { NoAnswersYet(answers[..|answers| - 1], id); }
  }

  lemma HandleFits(a: Account, r: Request, throttled: bool, count: nat, uuid: string)
    ensures match Handle(a, r, throttled, count, uuid)
            case Answer(response) => Fits(response, r)
            case Wait(c) => Waits(c, r)
  {
  }

  lemma AnswersSnoc(answers: seq<(nat, Response)>, id: nat, x: (nat, Response))
    ensures AnswersTo(answers + [x], id) == AnswersTo(answers, id) + (if x.0 == id then 1 else 0)
  {
    assert (answers + [x])[..|answers|] == answers;
  }

  /** A context leaves where it waits and its response is enqueued. */
  lemma AnswerKeepsAnswered(s: State, t: State, id: nat, response: Response)
    requires Answered(s) && (id in s.routing || id in s.deducting || id in s.boxed) && Fits(response, s.requests[id])
    requires t.requests == s.requests && t.answers == s.answers + [(id, response)]
    requires t.routing == s.routing - {id} && t.deducting == s.deducting - {id} && t.boxed == s.boxed - {id}
    ensures Answered(t)
  {
    forall q: nat ensures AnswersTo(t.answers, q) == AnswersTo(s.answers, q) + (if q == id then 1 else 0) {
      AnswersSnoc(s.answers, q, (id, response));
    }
  }

  lemma Elsewhere(s: State, id: nat)
    requires Answered(s)
    ensures id in s.routing ==> id !in s.deducting && id !in s.boxed
    ensures id in s.deducting ==> id !in s.routing && id !in s.boxed
    ensures id in s.boxed ==> id !in s.routing && id !in s.deducting
  {
    assert id in s.routing || id in s.deducting || id in s.boxed ==> id < |s.requests| && Waiting(s, id) <= 1;
  }

  /** A context goes on to a bearerbox. */
  lemma BoxingKeepsAnswered(s: State, t: State, id: nat, c: Context)
    requires Answered(s) && (id in s.routing || id in s.deducting) && Waits(c, s.requests[id])
    requires t.requests == s.requests && t.answers == s.answers
    requires t.routing == s.routing - {id} && t.deducting == s.deducting - {id} && t.boxed == s.boxed[id := c]
    ensures Answered(t)
  {
    Elsewhere(s, id);
    assert forall q :: Waiting(t, q) == Waiting(s, q);
  }

  /** Its balance has been read. */
  lemma ReadingKeepsAnswered(s: State, t: State, id: nat, d: Deduction)
    requires Answered(s) && id in s.routing && Waits(d.c, s.requests[id])
    requires t.requests == s.requests && t.answers == s.answers
    requires t.routing == s.routing - {id} && t.deducting == s.deducting[id := d] && t.boxed == s.boxed
    ensures Answered(t)
  {
    Elsewhere(s, id);
    assert forall q :: Waiting(t, q) == Waiting(s, q);
  }

  /** What a context is refused with, or sent on with, fits its request. */
  lemma OutcomesFit(a: Account, c: Context, q: Request, stored: bool)
    requires Waits(c, q)
    ensures forall status :: status != ESME_ROK ==> Fits(Refused(c, status).response, q)
    ensures match SentOn(a, c, stored)
            case Answer(response) => Fits(response, q)
            case Wait(ctx) => ctx == c
  {
  }

  /** The outcome of routing or of a deduction. */
  lemma TakingKeepsAnswered(s: State, t: State, id: nat, c: Context, step: Step)
    requires Answered(s) && (id in s.routing || id in s.deducting) && Waits(c, s.requests[id])
    requires match step case Answer(response) => Fits(response, s.requests[id]) case Wait(ctx) => ctx == c
    requires t.requests == s.requests && t.routing == s.routing - {id} && t.deducting == s.deducting - {id}
    requires match step
             case Answer(response) => t.answers == s.answers + [(id, response)] && t.boxed == s.boxed
             case Wait(ctx) => t.answers == s.answers && t.boxed == s.boxed[id := ctx]
    ensures Answered(t)
  {
    Elsewhere(s, id);
    match step
    case Answer(response) =>
      assert s.boxed - {id} == s.boxed;
      AnswerKeepsAnswered(s, t, id, response);
    case Wait(ctx) => BoxingKeepsAnswered(s, t, id, c);
  }

  lemma StepKeepsAnswered(a: Account, s: State, e: Event)
    requires Answered(s) && Enabled(s, e)
    ensures Answered(Apply(a, s, e))
  {
    match e
    case Submit(_, _, _, _) => SubmitKeepsAnswered(a, s, e);
    case RouteDone(_, _, _, _) => RouteKeepsAnswered(a, s, e);
    case Update(_, _, _) => UpdateKeepsAnswered(a, s, e);
    case BoxDone(id, status) =>
      Elsewhere(s, id);
      assert s.routing - {id} == s.routing && s.deducting - {id} == s.deducting;
      AnswerKeepsAnswered(s, Apply(a, s, e), id, Completed(s.boxed[id].response, status));
  }

  lemma RouteKeepsAnswered(a: Account, s: State, e: Event)
    requires Answered(s) && Enabled(s, e) && e.RouteDone?
    ensures Answered(Apply(a, s, e))
  {
    var t, c, id := Apply(a, s, e), s.routing[e.id], e.id;
    Elsewhere(s, id);
    OutcomesFit(a, c, s.requests[id], e.stored);
    assert s.deducting - {id} == s.deducting;
    if !Routable(c, e.rs) {
      TakingKeepsAnswered(s, t, id, c, Refused(c, e.rs.status));
    } else if !a.prepaid {
      TakingKeepsAnswered(s, t, id, c, SentOn(a, c, e.stored));
    } else if !Covered(s.credit, Price(a, e.rs), e.readable) {
      TakingKeepsAnswered(s, t, id, c, Refused(c, ESME_RSUBMITFAIL));
    } else if Price(a, e.rs) == 0 {
      TakingKeepsAnswered(s, t, id, c, SentOn(a, c, e.stored));
    } else {
      ReadingKeepsAnswered(s, t, id, Deduction(c, e.rs));
    }
  }

  lemma UpdateKeepsAnswered(a: Account, s: State, e: Event)
    requires Answered(s) && Enabled(s, e) && e.Update?
    ensures Answered(Apply(a, s, e))
  {
    var t, c, id := Apply(a, s, e), s.deducting[e.id].c, e.id;
    Elsewhere(s, id);
    OutcomesFit(a, c, s.requests[id], e.stored);
    assert s.routing - {id} == s.routing;
    TakingKeepsAnswered(s, t, id, c, if e.updates then SentOn(a, c, e.stored) else Refused(c, ESME_RSUBMITFAIL));
  }

  lemma SubmitKeepsAnswered(a: Account, s: State, e: Event)
    requires Answered(s) && e.Submit?
    ensures Answered(Apply(a, s, e))
  {
    HandleFits(a, e.r, e.throttled, e.count, e.uuid);
    NoAnswersYet(s.answers, |s.requests|);
    match Handle(a, e.r, e.throttled, e.count, e.uuid) {
      case Answer(response) => AtOnceKeepsAnswered(s, Apply(a, s, e), e.r, response);
      case Wait(c) => WaitingKeepsAnswered(s, Apply(a, s, e), e.r, c);
    }
  }

  lemma AtOnceKeepsAnswered(s: State, t: State, r: Request, response: Response)
    requires Answered(s) && Fits(response, r) && AnswersTo(s.answers, |s.requests|) == 0
    requires t.requests == s.requests + [r] && t.answers == s.answers + [(|s.requests|, response)]
    requires t.routing == s.routing && t.deducting == s.deducting && t.boxed == s.boxed
    ensures Answered(t)
  {
    forall q: nat ensures AnswersTo(t.answers, q) == AnswersTo(s.answers, q) + (if q == |s.requests| then 1 else 0) {
      AnswersSnoc(s.answers, q, (|s.requests|, response));
    }
  }

  lemma WaitingKeepsAnswered(s: State, t: State, r: Request, c: Context)
    requires Answered(s) && Waits(c, r) && AnswersTo(s.answers, |s.requests|) == 0
    requires t.requests == s.requests + [r] && t.answers == s.answers
    requires t.routing == s.routing[|s.requests| := c] && t.deducting == s.deducting && t.boxed == s.boxed
    ensures Answered(t)
  {
  }

  lemma TotalSnoc(charges: seq<Charge>, c: Charge)
    ensures Total(charges + [c]) == Total(charges) + Amount(c)
  {
    assert (charges + [c])[..|charges|] == charges;
  }

  lemma ChargeKeepsCharged(a: Account, s: State, t: State, c: Charge, initial: int)
    requires Charged(a, s, initial) && a.prepaid && c.request !in s.passed && c.request < |s.requests|
    requires t.requests == s.requests && t.passed == s.passed + {c.request} && t.charges == s.charges + [c]
    requires t.credit == s.credit - Amount(c)
    requires t.routing == s.routing - {c.request} && t.deducting == s.deducting - {c.request}
    ensures Charged(a, t, initial)
  {
    TotalSnoc(s.charges, c);
    PayersSnoc(s.charges, c);
    OneMorePayer(s.charges, c);
  }

  lemma OneMorePayer(charges: seq<Charge>, c: Charge)
    requires c.request !in Payers(charges)
    requires forall i, j :: 0 <= i < j < |charges| ==> charges[i].request != charges[j].request
    ensures var all := charges + [c]; forall i, j :: 0 <= i < j < |all| ==> all[i].request != all[j].request
  {
    var all := charges + [c];
    forall i, j | 0 <= i < j < |all| ensures all[i].request != all[j].request {
      assert all[i] == charges[i] && charges[i] in charges;
      assert j < |charges| ==> all[j] == charges[j];
    }
  }

  /** Steps without a charge: contexts move on, and at most a message of an account without prepaid billing passes. */
  lemma MovingKeepsCharged(a: Account, s: State, t: State, id: nat, initial: int)
    requires Charged(a, s, initial) && id < |s.requests| && |s.requests| <= |t.requests|
    requires t.charges == s.charges && t.credit == s.credit
    requires t.passed == s.passed || (!a.prepaid && t.passed == s.passed + {id} && id !in t.routing && id !in t.deducting)
    requires forall q :: q in t.routing ==> q in s.routing || q >= |s.requests|
    requires forall q :: q in t.deducting ==> (q in s.deducting || (q in s.routing && a.prepaid)) && q !in t.routing
    ensures Charged(a, t, initial)
  {
  }

  lemma UpdateKeepsCharged(a: Account, s: State, e: Event, initial: int)
    requires Answered(s) && Charged(a, s, initial) && Enabled(s, e) && e.Update?
    ensures Charged(a, Apply(a, s, e), initial)
  {
    var t, d := Apply(a, s, e), s.deducting[e.id];
    if e.updates {
      assert s.routing - {e.id} == s.routing;
      ChargeKeepsCharged(a, s, t, Charge(e.id, d.rs.parts, Rate(a, d.rs)), initial);
    } else {
      MovingKeepsCharged(a, s, t, e.id, initial);
    }
  }

  /** A message that costs nothing needs no update. */
  predicate Free(a: Account, s: State, e: Event)
    requires e.RouteDone? && e.id in s.routing
  {
    a.prepaid && Routable(s.routing[e.id], e.rs) && Covered(s.credit, Price(a, e.rs), e.readable) && Price(a, e.rs) == 0
  }

  lemma FreeRouteKeepsCharged(a: Account, s: State, e: Event, initial: int)
    requires Answered(s) && Charged(a, s, initial) && Enabled(s, e) && e.RouteDone? && Free(a, s, e)
    ensures Charged(a, Apply(a, s, e), initial)
  {
    Elsewhere(s, e.id);
    assert s.deducting - {e.id} == s.deducting;
    ChargeKeepsCharged(a, s, Apply(a, s, e), Charge(e.id, e.rs.parts, Rate(a, e.rs)), initial);
  }

  lemma OtherRouteMoves(a: Account, s: State, e: Event)
    requires Answered(s) && Enabled(s, e) && e.RouteDone? && !Free(a, s, e)
    ensures var t := Apply(a, s, e);
            && t.requests == s.requests && t.charges == s.charges && t.credit == s.credit && t.routing == s.routing - {e.id}
            && (t.passed == s.passed || (!a.prepaid && t.passed == s.passed + {e.id} && e.id !in t.deducting))
            && (t.deducting == s.deducting || (a.prepaid && t.deducting.Keys == s.deducting.Keys + {e.id}))
            && e.id !in s.deducting
  {
    Elsewhere(s, e.id);
    var c := s.routing[e.id];
    if !Routable(c, e.rs) {
    } else if !a.prepaid {
    } else if !Covered(s.credit, Price(a, e.rs), e.readable) {
    } else {
      assert Apply(a, s, e).deducting == s.deducting[e.id := Deduction(c, e.rs)];
    }
  }

  lemma RouteKeepsCharged(a: Account, s: State, e: Event, initial: int)
    requires Answered(s) && Charged(a, s, initial) && Enabled(s, e) && e.RouteDone?
    ensures Charged(a, Apply(a, s, e), initial)
  {
    if Free(a, s, e) {
      FreeRouteKeepsCharged(a, s, e, initial);
    } else {
      OtherRouteMoves(a, s, e);
      assert forall q :: q in s.deducting ==> q !in s.routing;
      MovingKeepsCharged(a, s, Apply(a, s, e), e.id, initial);
    }
  }

  lemma StepKeepsCharged(a: Account, s: State, e: Event, initial: int)
    requires Answered(s) && Charged(a, s, initial) && Enabled(s, e)
    ensures Charged(a, Apply(a, s, e), initial)
  {
    match e
    case Update(_, _, _) => UpdateKeepsCharged(a, s, e, initial);
    case RouteDone(_, _, _, _) => RouteKeepsCharged(a, s, e, initial);
    case BoxDone(id, _) => MovingKeepsCharged(a, s, Apply(a, s, e), id, initial);
    case Submit(_, _, _, _) =>
  }

  lemma {:induction false} RunKeeps(a: Account, s: State, events: seq<Event>, t: State, initial: int)
    requires Answered(s) && Charged(a, s, initial) && Run(a, s, events, t)
    ensures Answered(t) && Charged(a, t, initial)
    decreases |events|
  {
    if events != [] {
      StepKeepsAnswered(a, s, events[0]);
      StepKeepsCharged(a, s, events[0], initial);
      RunKeeps(a, Apply(a, s, events[0]), events[1..], t, initial);
    }
  }

  /** Every request gets at most one response, with its own sequence number, and exactly one unless it is
      still being routed, charged or delivered; a response has a message id exactly when its status is 0. */
  lemma OneResponseEach(a: Account, s: State, events: seq<Event>, t: State)
    requires Initial(s) && Run(a, s, events, t)
    ensures forall id :: 0 <= id < |t.requests| ==>
              AnswersTo(t.answers, id) == if id in t.routing || id in t.deducting || id in t.boxed then 0 else 1
    ensures forall k :: 0 <= k < |t.answers| ==>
              t.answers[k].0 < |t.requests| && Fits(t.answers[k].1, t.requests[t.answers[k].0])
  {
    RunKeeps(a, s, events, t, s.credit);
    forall id | 0 <= id < |t.requests|
      ensures AnswersTo(t.answers, id) == if id in t.routing || id in t.deducting || id in t.boxed then 0 else 1 {}
  }

  /** A simulated message, whatever it says, is about a request that was answered with success and that
      message's id. */
  ghost predicate AnsweredFor(answers: seq<(nat, Response)>, x: Simulated) {
    exists k :: 0 <= k < |answers| && answers[k].1.messageId == Some(x.msg.uuid) && answers[k].1.status == ESME_ROK
  }

  lemma {:induction false} SimulatedAreAnswered(a: Account, s: State, events: seq<Event>, t: State)
    requires Run(a, s, events, t) && forall x :: x in s.simulated ==> AnsweredFor(s.answers, x)
    ensures forall x :: x in t.simulated ==> AnsweredFor(t.answers, x)
    decreases |events|
  {
    if events != [] {
      StepKeepsAnsweredFor(a, s, events[0]);
      SimulatedAreAnswered(a, Apply(a, s, events[0]), events[1..], t);
    }
  }

  lemma StepKeepsAnsweredFor(a: Account, s: State, e: Event)
    requires Enabled(s, e) && forall x :: x in s.simulated ==> AnsweredFor(s.answers, x)
    ensures forall x :: x in Apply(a, s, e).simulated ==> AnsweredFor(Apply(a, s, e).answers, x)
  {
    var t := Apply(a, s, e);
    assert s.answers <= t.answers;
    forall x | x in s.simulated ensures AnsweredFor(t.answers, x) {
      var k :| 0 <= k < |s.answers| && s.answers[k].1.messageId == Some(x.msg.uuid) && s.answers[k].1.status == ESME_ROK;
      assert t.answers[k] == s.answers[k];
    }
    if e.Submit? && Simulates(a, e.r, e.throttled, e.count, e.uuid) {
      assert t.answers[|s.answers|].1 == Response(e.r.kind, e.r.seqNo, ESME_ROK, Some(e.uuid));
      forall x | x in Simulation(a, e.r, e.throttled, e.count, e.uuid) ensures AnsweredFor(t.answers, x) {
        assert x.msg.uuid == e.uuid;
      }
    }
  }

  // ------------------------------------------------------------------ what is paid

  /** What the routing callbacks of a run ask for the messages in `ids`: the parts times the cost of the route, or
      times the account's default cost when there was no route. */
  function Paid(a: Account, events: seq<Event>, ids: set<nat>): nat
    decreases |events|
  {
    if events == [] then 0
    else
      var e := events[|events| - 1];
      Paid(a, events[..|events| - 1], ids)
      + if e.RouteDone? && e.id in ids then e.rs.parts * (if e.rs.status == ESME_ROK then e.rs.cost else a.defaultCost) else 0
  }

  lemma {:induction false} PaidOneMore(a: Account, events: seq<Event>, ids: set<nat>, id: nat)
    requires id !in ids
    ensures Paid(a, events, ids + {id}) == Paid(a, events, ids) + Paid(a, events, {id})
    ensures Paid(a, events, {}) == 0
    decreases |events|
  {
    if events != [] {
      PaidOneMore(a, events[..|events| - 1], ids, id);
    }
  }

  /** The routing callback's step, on the account and the route alone: without a route and an SMSC the message is
      refused with the status of the route; with one of them an account without prepaid billing goes on. */
  lemma RoutingWithoutCharge(a: Account, s: State, id: nat, rs: RouteStatus, readable: bool, stored: bool)
    requires id in s.routing && (!a.prepaid || (rs.status != ESME_ROK && !s.routing[id].hasSmsc))
    ensures var t, c := Apply(a, s, RouteDone(id, rs, readable, stored)), s.routing[id];
            && t.credit == s.credit && t.deducting == s.deducting && t.routing == s.routing - {id}
            && (if rs.status != ESME_ROK && !c.hasSmsc then
                  t.passed == s.passed && t.boxed == s.boxed
                  && t.answers == s.answers + [(id, c.response.(messageId := None, status := rs.status))]
                else t.passed == s.passed + {id})
  {
  }

  /** With prepaid billing it goes on only if the balance could be read and covers the parts times the route's cost,
      or the default cost without a route; the update is still to come, unless that is nothing. */
  lemma RoutingReadsBalance(a: Account, s: State, id: nat, rs: RouteStatus, readable: bool, stored: bool)
    requires id in s.routing && a.prepaid && (rs.status == ESME_ROK || s.routing[id].hasSmsc)
    ensures var t, c := Apply(a, s, RouteDone(id, rs, readable, stored)), s.routing[id];
            var due := rs.parts * (if rs.status == ESME_ROK then rs.cost else a.defaultCost);
            && t.credit == s.credit && t.routing == s.routing - {id}
            && (!readable || s.credit < due ==>
                  t.passed == s.passed && t.deducting == s.deducting && t.boxed == s.boxed
                  && t.answers == s.answers + [(id, c.response.(messageId := None, status := ESME_RSUBMITFAIL))])
            && (readable && s.credit >= due && due > 0 ==>
                  t.passed == s.passed && t.deducting == s.deducting[id := Deduction(c, rs)]
                  && t.answers == s.answers && t.boxed == s.boxed)
            && (readable && s.credit >= due && due == 0 ==> t.passed == s.passed + {id} && t.deducting == s.deducting)
  {
    var due := rs.parts * (if rs.status == ESME_ROK then rs.cost else a.defaultCost);
    assert Price(a, rs) == due && Amount(Charge(id, rs.parts, Rate(a, rs))) == due;
  }

  /** The update takes exactly that from the balance, or nothing if it fails, and then the message is refused. */
  lemma UpdateTakesWhatIsDue(a: Account, s: State, id: nat, updates: bool, stored: bool)
    requires id in s.deducting
    ensures var t, c, rs := Apply(a, s, Update(id, updates, stored)), s.deducting[id].c, s.deducting[id].rs;
            && t.routing == s.routing && t.deducting == s.deducting - {id}
            && (updates ==>
                  && t.credit == s.credit - rs.parts * (if rs.status == ESME_ROK then rs.cost else a.defaultCost)
                  && t.passed == s.passed + {id})
            && (!updates ==>
                  && t.credit == s.credit && t.passed == s.passed && t.boxed == s.boxed
                  && t.answers == s.answers + [(id, c.response.(messageId := None, status := ESME_RSUBMITFAIL))])
  {
    var rs := s.deducting[id].rs;
    assert Amount(Charge(id, rs.parts, Rate(a, rs))) == rs.parts * (if rs.status == ESME_ROK then rs.cost else a.defaultCost);
  }

  /** What a message that passes is sent on as: into the store with its answer, or to a bearerbox with its context. */
  lemma PassedGoOn(a: Account, s: State, id: nat, c: Context, stored: bool)
    ensures var t := Pass(s, id, SentOn(a, c, stored));
            && t.passed == s.passed + {id} && t.credit == s.credit
            && (a.storePrimary && stored ==> t.boxed == s.boxed && t.answers == s.answers + [(id, c.response.(status := ESME_ROK))])
            && (a.storePrimary && !stored ==>
                  t.boxed == s.boxed && t.answers == s.answers + [(id, c.response.(messageId := None, status := ESME_RSYSERR))])
            && (!a.storePrimary ==> t.boxed == s.boxed[id := c] && t.answers == s.answers)
  {
  }

  /** The books after the events `done`: nothing was asked for a message that is still to be routed, and for one
      whose balance was read, what it will pay. */
  ghost predicate Booked(a: Account, done: seq<Event>, s: State, initial: int) {
    && initial - s.credit == (if a.prepaid then Paid(a, done, s.passed) else 0)
    && (forall id :: id in s.routing || id >= |s.requests| ==> Paid(a, done, {id}) == 0)
    && (forall id :: id in s.deducting ==>
          var rs := s.deducting[id].rs;
          Paid(a, done, {id}) == rs.parts * (if rs.status == ESME_ROK then rs.cost else a.defaultCost))
  }

  lemma PaidSnoc(a: Account, done: seq<Event>, e: Event, ids: set<nat>)
    ensures Paid(a, done + [e], ids)
         == Paid(a, done, ids)
            + if e.RouteDone? && e.id in ids then e.rs.parts * (if e.rs.status == ESME_ROK then e.rs.cost else a.defaultCost) else 0
  {
    assert (done + [e])[..|done|] == done;
  }

  lemma OnlyRoutingAsks(a: Account, done: seq<Event>, e: Event, ids: set<nat>)
    requires !e.RouteDone? || e.id !in ids
    ensures Paid(a, done + [e], ids) == Paid(a, done, ids)
  {
    PaidSnoc(a, done, e, ids);
  }

  lemma UpdateKeepsBooked(a: Account, done: seq<Event>, s: State, e: Event, initial: int)
    requires Booked(a, done, s, initial) && Enabled(s, e) && e.Update? && e.id !in s.passed && a.prepaid
    ensures Booked(a, done + [e], Apply(a, s, e), initial)
  {
    forall ids { OnlyRoutingAsks(a, done, e, ids); }
    UpdateTakesWhatIsDue(a, s, e.id, e.updates, e.stored);
    PaidOneMore(a, done, s.passed, e.id);
    assert Apply(a, s, e).requests == s.requests;
  }

  /** What the routing callback does to the books, in each of its outcomes: refused, balance read, passed. */
  lemma RoutedKeepsBooked(a: Account, done: seq<Event>, s: State, e: Event, t: State, initial: int)
    requires Booked(a, done, s, initial) && e.RouteDone? && e.id in s.routing && e.id !in s.passed
    requires t.credit == s.credit && t.requests == s.requests && t.routing == s.routing - {e.id}
    requires e.id < |s.requests| && e.id !in s.deducting
    requires var due := e.rs.parts * (if e.rs.status == ESME_ROK then e.rs.cost else a.defaultCost);
             || (t.passed == s.passed && t.deducting == s.deducting)
             || (t.passed == s.passed && t.deducting == s.deducting[e.id := Deduction(s.routing[e.id], e.rs)])
             || (t.passed == s.passed + {e.id} && t.deducting == s.deducting && (a.prepaid ==> due == 0))
    ensures Booked(a, done + [e], t, initial)
  {
    PaidSnoc(a, done, e, t.passed);
    PaidSnoc(a, done, e, {e.id});
    PaidOneMore(a, done, s.passed, e.id);
    forall id | id != e.id { OnlyRoutingAsks(a, done, e, {id}); }
  }

  lemma RouteKeepsBooked(a: Account, done: seq<Event>, s: State, e: Event, initial: int)
    requires Booked(a, done, s, initial) && Enabled(s, e) && e.RouteDone?
    requires e.id !in s.passed && e.id < |s.requests| && e.id !in s.deducting
    ensures Booked(a, done + [e], Apply(a, s, e), initial)
  {
    var t := Apply(a, s, e);
    assert t.requests == s.requests;
    if !a.prepaid || (e.rs.status != ESME_ROK && !s.routing[e.id].hasSmsc) {
      RoutingWithoutCharge(a, s, e.id, e.rs, e.readable, e.stored);
    } else {
      RoutingReadsBalance(a, s, e.id, e.rs, e.readable, e.stored);
    }
    RoutedKeepsBooked(a, done, s, e, t, initial);
  }

  lemma OtherStepKeepsBooked(a: Account, done: seq<Event>, s: State, e: Event, initial: int)
    requires Booked(a, done, s, initial) && Enabled(s, e) && (e.Submit? || e.BoxDone?)
    ensures Booked(a, done + [e], Apply(a, s, e), initial)
  {
    forall ids { OnlyRoutingAsks(a, done, e, ids); }
    var t := Apply(a, s, e);
    assert t.credit == s.credit && t.passed == s.passed && t.deducting == s.deducting && |t.requests| >= |s.requests|;
    assert forall id :: id in t.routing ==> id in s.routing || id >= |s.requests|;
  }

  lemma StepKeepsBooked(a: Account, done: seq<Event>, s: State, e: Event, initial: int)
    requires Answered(s) && Charged(a, s, initial) && Booked(a, done, s, initial) && Enabled(s, e)
    ensures Booked(a, done + [e], Apply(a, s, e), initial)
  {
    match e
    case RouteDone(id, _, _, _) =>
      Elsewhere(s, id);
      RouteKeepsBooked(a, done, s, e, initial);
    case Update(_, _, _) => UpdateKeepsBooked(a, done, s, e, initial);
    case _ => OtherStepKeepsBooked(a, done, s, e, initial);
  }

  lemma {:induction false} RunKeepsBooked(a: Account, done: seq<Event>, s: State, events: seq<Event>, t: State, initial: int)
    requires Answered(s) && Charged(a, s, initial) && Booked(a, done, s, initial) && Run(a, s, events, t)
    ensures Answered(t) && Charged(a, t, initial) && Booked(a, done + events, t, initial)
    decreases |events|
  {
    if events == [] {
      assert done + events == done;
    } else {
      var e, rest := events[0], events[1..];
      StepKeepsAnswered(a, s, e);
      StepKeepsCharged(a, s, e, initial);
      StepKeepsBooked(a, done, s, e, initial);
      RunKeepsBooked(a, done + [e], Apply(a, s, e), rest, t, initial);
      assert done + [e] + rest == done + events;
    }
  }

  /** However the deductions overlap: what is gone is, for each message that passed, its parts times the cost of
      its route, or times the default cost if it had none; and each such message is charged for once. */
  lemma CreditIsConserved(a: Account, s: State, events: seq<Event>, t: State)
    requires Initial(s) && Run(a, s, events, t)
    ensures s.credit - t.credit == if a.prepaid then Paid(a, events, t.passed) else 0
    ensures s.credit - t.credit == Total(t.charges)
    ensures forall i, j :: 0 <= i < j < |t.charges| ==> t.charges[i].request != t.charges[j].request
    ensures Payers(t.charges) == if a.prepaid then t.passed else {}
  {
    assert [] + events == events;
    RunKeepsBooked(a, [], s, events, t, s.credit);
  }
}
