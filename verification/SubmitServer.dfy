/** The handlers and callbacks that perform the steps of SubmitFlow. */
module SubmitServer {
  import opened Common
  import opened Addresses
  import opened SubmitFlow

  /** The two steps of a charge, one right after the other. */
  lemma WhatRoutingDoes(a: Account, s: State, id: nat, rs: RouteStatus, readable: bool, updates: bool, stored: bool)
    requires id in s.routing && id !in s.deducting
    ensures var read := Apply(a, s, RouteDone(id, rs, readable, stored));
            var c, t, cost := s.routing[id], s.(routing := s.routing - {id}), Price(a, rs);
            var ok := Covered(s.credit, cost, readable) && (cost == 0 || updates);
            (if id in read.deducting then Apply(a, read, Update(id, updates, stored)) else read)
            == if !Routable(c, rs) then Take(t, id, Refused(c, rs.status))
               else if !a.prepaid then Pass(t, id, SentOn(a, c, stored))
               else if ok then Pass(Charge1(t, Charge(id, rs.parts, Rate(a, rs))), id, SentOn(a, c, stored))
               else Take(t, id, Refused(c, ESME_RSUBMITFAIL))
  {
    assert s.deducting[id := Deduction(s.routing[id], rs)] - {id} == s.deducting;
  }

  class Session {
    const account: Account
    var outbound: seq<(nat, Response)>
    var routing: map<nat, Context>
    var boxed: map<nat, Context>
    var credit: int
    var received: nat
    var simulation: seq<Simulated>
    ghost var deducting: map<nat, Deduction>
    ghost var requests: seq<Request>
    ghost var charges: seq<Charge>
    ghost var passed: set<nat>

    ghost function View(): State
      reads this
    {
      State(requests, routing, deducting, boxed, outbound, credit, charges, passed, simulation)
    }

    constructor (account: Account, credit: nat)
      ensures Initial(View()) && this.account == account && this.credit == credit && received == 0
    {
      this.account, this.credit := account, credit;
      outbound, routing, boxed, received, simulation := [], map[], map[], 0, [];
      requests, deducting, charges, passed := [], map[], [], {};
    }

    /** smpp_submit_sm_to_msg and its data_sm twin: address by address, then the header checks. */
    method ToMsg(r: Request, uuid: string) returns (c: Conversion)
      ensures c == Convert(r, uuid)
      ensures c.Accepted? ==>
                && c.msg.uuid == uuid && r.dest.Some? && c.msg.receiver == Some(Converted(r.dest.value, r.destTon).1)
                && c.msg.sender == if r.source.None? then None else Some(Converted(r.source.value, r.sourceTon).1)
      ensures c.Rejected? ==>
                || (c.reason == ESME_RINVDSTADR && r.dest.None?)
                || (c.reason == ESME_RINVSRCADR && r.source.Some? && Converted(r.source.value, r.sourceTon).0 != ESME_ROK)
                || (c.reason == ESME_RINVSRCADR && r.dest.Some? && Converted(r.dest.value, r.destTon).0 != ESME_ROK)
                || (c.reason == ESME_RINVTLVVAL && r.segmented && r.udhi)
                || (c.reason == ESME_RINVESMCLASS && r.udhi && |r.body| > 0 && r.body[0] >= |r.body|)
    {
      ConversionTable(r, uuid);
      var sender, receiver := None, None;
      if r.source.Some? {
        var reason, edited := ConvertAddr(r.source.value, r.sourceTon);
        if reason != ESME_ROK { return Rejected(reason); }
        sender := Some(edited);
      }
      if r.dest.None? { return Rejected(ESME_RINVDSTADR); }
      var reason, edited := ConvertAddr(r.dest.value, r.destTon);
      if reason != ESME_ROK { return Rejected(reason); }
      receiver := Some(edited);
      if r.segmented {
        if r.udhi { return Rejected(ESME_RINVTLVVAL); }
      }
      if r.udhi {
        var udhl := if r.body == [] then 0 else r.body[0] + 1;
        if udhl > |r.body| { return Rejected(ESME_RINVESMCLASS); }
      }
      c := Accepted(Msg(uuid, sender, receiver));
    }

    method Enqueue(id: nat, response: Response)
      modifies this`outbound
      ensures outbound == old(outbound) + [(id, response)]
    {
      outbound := outbound + [(id, response)];
    }

    /** How the handlers leave request `id`: refused with the status of the first check that fails, answered with
        success if success is simulated, else waiting for its route. */
    ghost predicate Outcome(before: seq<(nat, Response)>, waiting: map<nat, Context>, id: nat, r: Request,
                            throttled: bool, count: nat, uuid: string)
      reads this
    {
      var c, simulates := Convert(r, uuid), r.kind.SubmitSm? && account.simulate;
      var status := if !account.transmits then ESME_RINVBNDSTS
                    else if throttled then ESME_RTHROTTLED
                    else if simulates && account.temporaryEvery > 0 && count % account.temporaryEvery == 0 then ESME_RMSGQFUL
                    else if simulates && account.permanentEvery > 0 && count % account.permanentEvery == 0 then ESME_RSUBMITFAIL
                    else if c.Rejected? then c.reason else ESME_ROK;
      if status != ESME_ROK then outbound == before + [(id, Response(r.kind, r.seqNo, status, None))] && routing == waiting
      else if simulates then outbound == before + [(id, Response(r.kind, r.seqNo, ESME_ROK, Some(uuid)))] && routing == waiting
      else outbound == before && routing
           == waiting[id := Context(Response(r.kind, r.seqNo, ESME_ROK, Some(uuid)), uuid, account.defaultSmsc)]
    }

    method HandleSubmitSm(r: Request, throttled: bool, count: nat, uuid: string)
      requires r.kind.SubmitSm? && received == |requests|
      modifies this
      ensures received == |requests| && View() == Apply(account, old(View()), Submit(r, throttled, count, uuid))
      ensures requests == old(requests) + [r] && Outcome(old(outbound), old(routing), |old(requests)|, r, throttled, count, uuid)
    {
      HandlingTable(account, r, throttled, count, uuid);
      var id := received;
      received := received + 1;
      requests := requests + [r];
      var response := Response(r.kind, r.seqNo, ESME_ROK, None);
      if !account.transmits {
        Enqueue(id, response.(status := ESME_RINVBNDSTS));
        return;
      }
      if throttled {
        Enqueue(id, response.(status := ESME_RTHROTTLED));
        return;
      }
      if account.simulate {
        if account.temporaryEvery != 0 && count % account.temporaryEvery == 0 {
          Enqueue(id, response.(status := ESME_RMSGQFUL));
        } else if account.permanentEvery != 0 && count % account.permanentEvery == 0 {
          Enqueue(id, response.(status := ESME_RSUBMITFAIL));
        } else {
          Simulate(id, r, count, uuid);
        }
      } else {
        RouteRequest(id, r, uuid);
      }
    }

    /** A success is simulated: the response, and now and then a report or a reply for the simulation thread. */
    method Simulate(id: nat, r: Request, count: nat, uuid: string)
      requires r.kind.SubmitSm? && account.transmits && account.simulate
      requires !Every(account.temporaryEvery, count) && !Every(account.permanentEvery, count)
      modifies this`outbound, this`simulation
      ensures Handle(account, r, false, count, uuid).Answer?
      ensures outbound == old(outbound) + [(id, Handle(account, r, false, count, uuid).response)]
      ensures simulation == old(simulation) + Simulation(account, r, false, count, uuid)
    {
      var conversion := ToMsg(r, uuid);
      if conversion.Rejected? {
        Enqueue(id, Response(r.kind, r.seqNo, conversion.reason, None));
        return;
      }
      var msg := conversion.msg;
      var response := Response(r.kind, r.seqNo, ESME_ROK, Some(msg.uuid));
      var responseSent := false;
      if account.deliverEvery != 0 && count % account.deliverEvery == 0 {
        Enqueue(id, response);
        responseSent := true;
        simulation := simulation + [SimulatedReport(msg, account.dlrFail)];
      }
      if account.moEvery != 0 && count % account.moEvery == 0 {
        msg := Msg(msg.uuid, msg.receiver, msg.sender);
        simulation := simulation + [SimulatedMo(msg)];
      }
      if !responseSent {
        Enqueue(id, response);
      }
    }

    method HandleDataSm(r: Request, throttled: bool, count: nat, uuid: string)
      requires r.kind.DataSm? && received == |requests|
      modifies this
      ensures received == |requests| && View() == Apply(account, old(View()), Submit(r, throttled, count, uuid))
      ensures requests == old(requests) + [r] && Outcome(old(outbound), old(routing), |old(requests)|, r, throttled, count, uuid)
    {
      HandlingTable(account, r, throttled, count, uuid);
      var id := received;
      received := received + 1;
      requests := requests + [r];
      if !account.transmits {
        Enqueue(id, Response(r.kind, r.seqNo, ESME_RINVBNDSTS, None));
      } else if throttled {
        Enqueue(id, Response(r.kind, r.seqNo, ESME_RTHROTTLED, None));
      } else {
        RouteRequest(id, r, uuid);
      }
    }

    /** The end of both handlers: convert, then route. */
    method RouteRequest(id: nat, r: Request, uuid: string)
      modifies this`outbound, this`routing
      ensures match Convert(r, uuid)
              case Rejected(reason) =>
                outbound == old(outbound) + [(id, Response(r.kind, r.seqNo, reason, None))] && routing == old(routing)
              case Accepted(m) =>
                outbound == old(outbound) && routing
                == old(routing)[id := Context(Response(r.kind, r.seqNo, ESME_ROK, Some(m.uuid)), m.uuid, account.defaultSmsc)]
    {
      var conversion := ToMsg(r, uuid);
      if conversion.Rejected? {
        Enqueue(id, Response(r.kind, r.seqNo, conversion.reason, None));
      } else {
        var msg := conversion.msg;
        var response := Response(r.kind, r.seqNo, ESME_ROK, Some(msg.uuid));
        routing := routing[id := Context(response, msg.uuid, account.defaultSmsc)];
      }
    }

    /** smpp_database_mysql_deduct_credit: one statement reads the balance, another one updates it. */
    method DeductCredit(cost: nat, readable: bool, updates: bool) returns (ok: bool)
      modifies this`credit
      ensures ok <==> readable && old(credit) >= cost && (cost == 0 || updates)
      ensures credit == if ok then old(credit) - cost else old(credit)
    {
      ok := false;
      if readable {
        if credit >= cost {
          ok := true;
        }
      }
      if ok {
        if cost != 0 {
          if updates {
            credit := credit - cost;
          } else {
            ok := false;
          }
        }
      }
    }

    /** smpp_queues_callback_submit_sm and smpp_queues_callback_data_sm. */
    method Callback(id: nat, response: Response, status: int)
      modifies this`outbound
      ensures outbound == old(outbound) + [(id, Completed(response, status))]
    {
      var r := response;
      if status != ESME_ROK {
        r := r.(messageId := None);
        r := r.(status := status);
        Enqueue(id, r);
      } else {
        r := r.(status := status);
        Enqueue(id, r);
      }
    }

    /** The message goes to the store, or with its context to the bearerboxes. */
    method SendOn(id: nat, c: Context, stored: bool)
      modifies this`outbound, this`boxed
      ensures account.storePrimary ==> boxed == old(boxed)
      ensures account.storePrimary ==>
        outbound == old(outbound) + [(id, Completed(c.response, if stored then ESME_ROK else ESME_RSYSERR))]
      ensures !account.storePrimary ==> outbound == old(outbound) && boxed == old(boxed)[id := c]
    {
      if account.storePrimary {
        if stored {
          Callback(id, c.response, ESME_ROK);
        } else {
          Callback(id, c.response, ESME_RSYSERR);
        }
      } else {
        boxed := boxed[id := c];
      }
    }

    /** The message of `c` has been stored and its response enqueued, or it has gone to the bearerboxes. */
    ghost predicate Sent(before: seq<(nat, Response)>, waiting: map<nat, Context>, id: nat, c: Context, stored: bool)
      reads this
    {
      if !account.storePrimary then outbound == before && boxed == waiting[id := c]
      else boxed == waiting && outbound == before + [(id, if stored then c.response.(status := ESME_ROK)
                                                          else c.response.(messageId := None, status := ESME_RSYSERR))]
    }

    /** Charges for a message that may go, and sends it on or refuses it. */
    method ChargeAndSend(id: nat, c: Context, rs: RouteStatus, readable: bool, updates: bool, stored: bool)
      modifies this`outbound, this`boxed, this`credit, this`charges, this`passed
      ensures var due := rs.parts * (if rs.status == ESME_ROK then rs.cost else account.defaultCost);
              var ok := account.prepaid ==> readable && old(credit) >= due && (due == 0 || updates);
              && credit == (if ok && account.prepaid then old(credit) - due else old(credit))
              && charges == (if ok && account.prepaid then old(charges) + [Charge(id, rs.parts, Rate(account, rs))] else old(charges))
              && passed == (if ok then old(passed) + {id} else old(passed))
              && (if ok then Sent(old(outbound), old(boxed), id, c, stored)
                  else boxed == old(boxed)
                       && outbound == old(outbound) + [(id, c.response.(messageId := None, status := ESME_RSUBMITFAIL))])
    {
      var ok := true;
      var cost := Price(account, rs);
      if account.prepaid {
        ok := DeductCredit(cost, readable, updates);
      }
      if ok {
        if account.prepaid {
          charges := charges + [Charge(id, rs.parts, Rate(account, rs))];
        }
        passed := passed + {id};
        SendOn(id, c, stored);
      } else {
        var r := c.response.(messageId := None);
        r := r.(status := ESME_RSUBMITFAIL);
        Enqueue(id, r);
      }
    }

    /** smpp_queues_submit_routing_done and smpp_queues_data_sm_routing_done, with no other thread between the two
        statements of a deduction. */
    method RoutingDone(id: nat, rs: RouteStatus, readable: bool, updates: bool, stored: bool)
      requires id in routing && id !in deducting
      modifies this`routing, this`outbound, this`boxed, this`credit, this`charges, this`passed
      ensures var read := Apply(account, old(View()), RouteDone(id, rs, readable, stored));
              View() == if id in read.deducting then Apply(account, read, Update(id, updates, stored)) else read
      ensures routing == old(routing) - {id}
      ensures var c, due := old(routing)[id], rs.parts * (if rs.status == ESME_ROK then rs.cost else account.defaultCost);
              var routable := rs.status == ESME_ROK || c.hasSmsc;
              var goes := routable && (account.prepaid ==> readable && old(credit) >= due && (due == 0 || updates));
              && passed == (if goes then old(passed) + {id} else old(passed))
              && credit == (if goes && account.prepaid then old(credit) - due else old(credit))
              && (if goes then Sent(old(outbound), old(boxed), id, c, stored)
                  else boxed == old(boxed)
                       && outbound == old(outbound)
                          + [(id, c.response.(messageId := None, status := if routable then ESME_RSUBMITFAIL else rs.status))])
    {
      WhatRoutingDoes(account, View(), id, rs, readable, updates, stored);
      var c := routing[id];
      routing := routing - {id};
      if rs.status == ESME_ROK {
        ChargeAndSend(id, c, rs, readable, updates, stored);
      } else if c.hasSmsc {
        ChargeAndSend(id, c, rs, readable, updates, stored);
      } else {
        var r := c.response.(messageId := None);
        r := r.(status := rs.status);
        Enqueue(id, r);
      }
    }

    /** The bearerbox protocol completes a context. */
    method Delivered(id: nat, status: int)
      requires id in boxed
      modifies this`outbound, this`boxed
      ensures View() == Apply(account, old(View()), BoxDone(id, status))
      ensures var r := old(boxed)[id].response;
              && outbound == old(outbound) + [(id, if status == ESME_ROK then r.(status := ESME_ROK)
                                                   else r.(messageId := None, status := status))]
              && boxed == old(boxed) - {id}
    {
      var c := boxed[id];
      boxed := boxed - {id};
      Callback(id, c.response, status);
    }
  }
}
