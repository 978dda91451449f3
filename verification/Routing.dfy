/** Routing over the database's route table: the search, and the cache of outbound routes in front of it. */
module Routing {
  import opened Common

  type Regex = nat

  /** `sender` is the optional source expression; `target` is the SMSC of an outbound route or the account of
      an inbound one. Costs are in millionths. */
  datatype Route = Route(receiver: Regex, sender: Option<Regex>, smsc: string, target: string, cost: nat)

  datatype Direction = Outbound | Inbound

  /** `party` is the sending account outbound, the SMSC inbound. */
  datatype Request = Request(direction: Direction, party: string, sender: string, receiver: string)

  /** The regular expression engine. */
  type Matcher = (Regex, string) -> bool

  /** The table, in priority order; an account without routes of its own is not listed. */
  datatype Table = Table(inbound: seq<Route>, outbound: map<string, seq<Route>>)

  datatype Outcome = Outcome(status: int, cost: nat, target: Option<string>)

  /** octstr_case_compare's equality. */
  predicate SameName(a: string, b: string) {
    |a| == |b| && forall i :: 0 <= i < |a| ==> LowerChar(a[i]) == LowerChar(b[i])
  }

  predicate TakesSmsc(r: Route, q: Request) {
    q.direction.Inbound? && r.smsc != "" ==> SameName(r.smsc, q.party)
  }

  predicate TakesReceiver(m: Matcher, r: Route, q: Request) {
    TakesSmsc(r, q) && m(r.receiver, q.receiver)
  }

  predicate TakesSender(m: Matcher, r: Route, q: Request) {
    r.sender.Some? ==> m(r.sender.value, q.sender)
  }

  predicate Accepts(m: Matcher, r: Route, q: Request) {
    TakesReceiver(m, r, q) && TakesSender(m, r, q)
  }

  /** Some route would take the receiver, but not from this sender. */
  predicate SenderDeclined(m: Matcher, routes: seq<Route>, q: Request) {
    exists i :: 0 <= i < |routes| && TakesReceiver(m, routes[i], q) && !TakesSender(m, routes[i], q)
  }

  /** What the message gets from a list of routes: the first that accepts it, or a reason. */
  predicate Follows(m: Matcher, routes: seq<Route>, q: Request, o: Outcome) {
    || (exists i :: 0 <= i < |routes| && Accepts(m, routes[i], q)
          && (forall j :: 0 <= j < i ==> !Accepts(m, routes[j], q))
          && o == Outcome(ESME_ROK, routes[i].cost, Some(routes[i].target)))
    || ((forall i :: 0 <= i < |routes| ==> !Accepts(m, routes[i], q))
          && o == Outcome(if SenderDeclined(m, routes, q) then ESME_RINVSRCADR else ESME_RINVDSTADR, 0, None))
  }

  /** The receiver is the route's, and so is the SMSC of an inbound message, unless the route is for all of them. */
  predicate Reaches(m: Matcher, r: Route, q: Request) {
    (q.direction == Inbound && |r.smsc| > 0 ==> Lower(r.smsc) == Lower(q.party)) && m(r.receiver, q.receiver)
  }

  /** And the sender is not declined. */
  predicate Carries(m: Matcher, r: Route, q: Request) {
    Reaches(m, r, q) && match r.sender case None => true case Some(x) => m(x, q.sender)
  }

  lemma AcceptsIff(m: Matcher, r: Route, q: Request)
    ensures Accepts(m, r, q) <==> Carries(m, r, q)
    ensures TakesReceiver(m, r, q) && !TakesSender(m, r, q) <==> Reaches(m, r, q) && !Carries(m, r, q)
  {
    if |r.smsc| == |q.party| {
      assert SameName(r.smsc, q.party) ==> Lower(r.smsc) == Lower(q.party);
      if Lower(r.smsc) == Lower(q.party) {
        forall i | 0 <= i < |r.smsc| ensures LowerChar(r.smsc[i]) == LowerChar(q.party[i]) {
          assert Lower(r.smsc)[i] == Lower(q.party)[i];
        }
      }
    }
  }

  /** The outcome on the routes themselves: target and cost of the first route that carries the message; without one
      the status says whether it was the sender that some route declined. */
  lemma FollowsIff(m: Matcher, routes: seq<Route>, q: Request, o: Outcome)
    ensures Follows(m, routes, q, o) <==>
            if exists i :: 0 <= i < |routes| && Carries(m, routes[i], q) then
              && o.status == ESME_ROK
              && exists i :: 0 <= i < |routes| && Carries(m, routes[i], q) && o.cost == routes[i].cost
                    && o.target == Some(routes[i].target) && forall j :: 0 <= j < i ==> !Carries(m, routes[j], q)
            else
              && o.cost == 0 && o.target == None
              && o.status == if exists i :: 0 <= i < |routes| && Reaches(m, routes[i], q) then ESME_RINVSRCADR else ESME_RINVDSTADR
  {
    forall i | 0 <= i < |routes| { AcceptsIff(m, routes[i], q); }
  }

  /** There is exactly one such outcome. */
  lemma FollowsIsUnique(m: Matcher, routes: seq<Route>, q: Request, o: Outcome, p: Outcome)
    requires Follows(m, routes, q, o) && Follows(m, routes, q, p)
    ensures o == p
  {
    if o.target.Some? {
      var i :| 0 <= i < |routes| && Accepts(m, routes[i], q) && (forall j :: 0 <= j < i ==> !Accepts(m, routes[j], q))
               && o == Outcome(ESME_ROK, routes[i].cost, Some(routes[i].target));
      assert !(forall k :: 0 <= k < |routes| ==> !Accepts(m, routes[k], q));
      var k :| 0 <= k < |routes| && Accepts(m, routes[k], q) && (forall j :: 0 <= j < k ==> !Accepts(m, routes[j], q))
               && p == Outcome(ESME_ROK, routes[k].cost, Some(routes[k].target));
      assert i == k;
    }
  }

  /** The routes that the database holds for a request. */
  function RoutesFor(t: Table, q: Request): seq<Route> {
    match q.direction
    case Inbound => t.inbound
    case Outbound => if q.party in t.outbound then t.outbound[q.party] else []
  }

  /** An empty account or SMSC is not routed at all. */
  predicate Answers(m: Matcher, t: Table, q: Request, o: Outcome) {
    if q.party == "" then o == Outcome(ESME_RINVDSTADR, 0, None) else Follows(m, RoutesFor(t, q), q, o)
  }

  class Router {
    const m: Matcher
    var table: Table
    var inboundRoutes: seq<Route>
    var outboundRoutes: map<string, seq<Route>>
    ghost var lookups: nat

    /** The cached routes are the table's. */
    ghost predicate Coherent()
      reads this
    {
      && inboundRoutes == table.inbound
      && forall id :: id in outboundRoutes ==>
                        outboundRoutes[id] == (if id in table.outbound then table.outbound[id] else [])
    }

    constructor (m: Matcher, table: Table)
      ensures this.m == m && this.table == table && Coherent() && lookups == 0
    {
      this.m, this.table := m, table;
      inboundRoutes, outboundRoutes, lookups := table.inbound, map[], 0;
    }

    /** Somebody edits the table. */
    method EditTable(table: Table)
      modifies this`table
      ensures this.table == table
    {
      this.table := table;
    }

    /** smpp_route_rebuild_database. */
    method Rebuild()
      modifies this`inboundRoutes, this`outboundRoutes
      ensures Coherent() && outboundRoutes == map[]
    {
      inboundRoutes := table.inbound;
      outboundRoutes := map[];
    }

    /** The cache is filled by the first request of an account, and not asked twice. */
    method OutboundRoutes(systemId: string) returns (routes: seq<Route>)
      modifies this`outboundRoutes, this`lookups
      ensures routes == if systemId in old(outboundRoutes) then old(outboundRoutes)[systemId]
                        else if systemId in table.outbound then table.outbound[systemId] else []
      ensures outboundRoutes == old(outboundRoutes)[systemId := routes]
      ensures lookups - old(lookups) == |outboundRoutes.Keys| - |old(outboundRoutes.Keys)|
    {
      if systemId !in outboundRoutes {
        routes := if systemId in table.outbound then table.outbound[systemId] else [];
        ghost var known := outboundRoutes.Keys;
        outboundRoutes := outboundRoutes[systemId := routes];
        assert outboundRoutes.Keys == known + {systemId};
        lookups := lookups + 1;
      }
      routes := outboundRoutes[systemId];
    }

    /** The search of both directions. A route of another SMSC is passed over with `found` reset. */
    method Search(routes: seq<Route>, q: Request) returns (o: Outcome)
      ensures Follows(m, routes, q, o)
    {
      var status, found, i := ESME_RINVDSTADR, false, 0;
      while i < |routes|
        invariant 0 <= i <= |routes| && !found
        invariant forall j :: 0 <= j < i ==> !Accepts(m, routes[j], q)
        invariant status == if SenderDeclined(m, routes[..i], q) then ESME_RINVSRCADR else ESME_RINVDSTADR
      {
        var route := routes[i];
        DeclinedSnoc(m, routes, i, q);
        found := false;
        if q.direction.Inbound? && route.smsc != "" && !SameName(route.smsc, q.party) {
          i := i + 1;
          continue;
        }
        found := m(route.receiver, q.receiver);
        if found {
          if route.sender.Some? {
            found := m(route.sender.value, q.sender);
            if found {
              break;
            } else {
              status := ESME_RINVSRCADR;
            }
          } else {
            break;
          }
        }
        i := i + 1;
      }
      if found {
        o := Outcome(ESME_ROK, routes[i].cost, Some(routes[i].target));
      } else {
        assert routes[..i] == routes;
        o := Outcome(status, 0, None);
      }
    }

    /** smpp_route_message_database. With the table unchanged since the last rebuild the outcome is the
        table's own. */
    method RouteMessage(q: Request) returns (o: Outcome)
      modifies this`outboundRoutes, this`lookups
      ensures old(Coherent()) ==> Coherent() && Answers(m, table, q, o)
      ensures q.direction.Outbound? && q.party != "" && q.party in old(outboundRoutes) ==>
                Follows(m, old(outboundRoutes)[q.party], q, o)
      ensures q.direction.Inbound? && q.party != "" ==> Follows(m, inboundRoutes, q, o)
      ensures lookups - old(lookups) == |outboundRoutes.Keys| - |old(outboundRoutes.Keys)|
      ensures forall id :: id in old(outboundRoutes) ==> id in outboundRoutes && outboundRoutes[id] == old(outboundRoutes)[id]
    {
      if q.direction.Outbound? && |q.party| > 0 {
        var routes := OutboundRoutes(q.party);
        o := Search(routes, q);
      } else if q.direction.Inbound? && |q.party| > 0 {
        o := Search(inboundRoutes, q);
      } else {
        o := Outcome(ESME_RINVDSTADR, 0, None);
      }
    }

    /** Any sequence of requests gets the table's own outcomes, although the table is read once for each
        account that was not in the cache. */
    method RouteAll(qs: seq<Request>) returns (os: seq<Outcome>)
      requires Coherent()
      modifies this`outboundRoutes, this`lookups
      ensures Coherent() && |os| == |qs|
      ensures forall i :: 0 <= i < |qs| ==> Answers(m, table, qs[i], os[i])
      ensures lookups - old(lookups) == |outboundRoutes.Keys| - |old(outboundRoutes.Keys)|
    {
      os := [];
      var i := 0;
      while i < |qs|
        invariant 0 <= i <= |qs| && |os| == i && Coherent()
        invariant forall j :: 0 <= j < i ==> Answers(m, table, qs[j], os[j])
        invariant lookups - old(lookups) == |outboundRoutes.Keys| - |old(outboundRoutes.Keys)|
      {
        var o := RouteMessage(qs[i]);
        os := os + [o];
        i := i + 1;
      }
    }
  }

  lemma DeclinedSnoc(m: Matcher, routes: seq<Route>, i: nat, q: Request)
    requires i < |routes|
    ensures SenderDeclined(m, routes[..i + 1], q) <==>
            SenderDeclined(m, routes[..i], q) || (TakesReceiver(m, routes[i], q) && !TakesSender(m, routes[i], q))
  {
    var a, b := routes[..i], routes[..i + 1];
    assert forall j :: 0 <= j < i ==> a[j] == b[j];
    assert b[i] == routes[i];
  }
}
