/** How far a prepaid balance can be overdrawn: a deduction reads the balance and updates it in two statements,
    and other deductions may come in between. */
module CreditRace {
  import opened Common
  import opened SubmitFlow

  /** At no time more than `k` deductions are between their two statements, and no message costs more than `c`. */
  ghost predicate Limited(a: Account, s: State, events: seq<Event>, k: nat, c: nat)
    decreases |events|
  {
    && |s.deducting| <= k
    && (events != [] && Enabled(s, events[0]) ==>
          && (events[0].RouteDone? ==> Price(a, events[0].rs) <= c)
          && Limited(a, Apply(a, s, events[0]), events[1..], k, c))
  }

  // ------------------------------------------------------------------ the bound

  /** What the deductions under way are about to take. */
  ghost function Pending(a: Account, d: map<nat, Deduction>): int
    decreases |d|
  {
    if d == map[] then 0
    else
      var id :| id in d;
      assert |d - {id}| < |d| by { Smaller(d, id); }
      Price(a, d[id].rs) + Pending(a, d - {id})
  }

  lemma Smaller(d: map<nat, Deduction>, id: nat)
    requires id in d
    ensures |d - {id}| == |d| - 1
  {
    assert (d - {id}).Keys == d.Keys - {id};
    assert |d.Keys| == |d| && |(d - {id}).Keys| == |d - {id}|;
  }

  lemma {:induction false} PendingWithout(a: Account, d: map<nat, Deduction>, id: nat)
    requires id in d
    ensures Pending(a, d) == Price(a, d[id].rs) + Pending(a, d - {id})
    decreases |d|
  {
    var j :| j in d && Pending(a, d) == Price(a, d[j].rs) + Pending(a, d - {j});
    if j != id {
      Smaller(d, j);
      Smaller(d, id);
      PendingWithout(a, d - {j}, id);
      PendingWithout(a, d - {id}, j);
      assert d - {j} - {id} == d - {id} - {j};
    }
  }

  lemma {:induction false} PendingAtMost(a: Account, d: map<nat, Deduction>, c: nat)
    requires forall id :: id in d ==> Price(a, d[id].rs) <= c
    ensures 0 <= Pending(a, d) <= |d| * c
    decreases |d|
  {
    if d != map[] {
      var id :| id in d;
      Smaller(d, id);
      PendingWithout(a, d, id);
      PendingAtMost(a, d - {id}, c);
      assert |d| * c == (|d| - 1) * c + c;
    }
  }

  /** The balance, less what is about to be taken, stays above the bound. */
  ghost predicate Bounded(a: Account, s: State, k: nat, c: nat) {
    && s.credit - Pending(a, s.deducting) >= -((k - 1) * c)
    && forall id :: id in s.deducting ==> Price(a, s.deducting[id].rs) <= c
  }

  lemma ReadKeepsBound(a: Account, s: State, t: State, id: nat, d: Deduction, k: nat, c: nat)
    requires Bounded(a, s, k, c) && id !in s.deducting && Price(a, d.rs) <= c && |t.deducting| <= k
    requires s.credit >= Price(a, d.rs) && t.credit == s.credit && t.deducting == s.deducting[id := d]
    ensures Bounded(a, t, k, c)
  {
    assert t.deducting - {id} == s.deducting;
    Smaller(t.deducting, id);
    PendingWithout(a, t.deducting, id);
    PendingAtMost(a, s.deducting, c);
    Scaled(|s.deducting|, k - 1, c);
  }

  lemma Scaled(m: nat, n: nat, c: nat)
    requires m <= n
    ensures m * c <= n * c
  {
  }

  /** Does the routing callback read the balance and find it enough, with an update to follow? */
  predicate Reads(a: Account, s: State, e: Event)
    requires e.RouteDone? && e.id in s.routing
  {
    a.prepaid && Routable(s.routing[e.id], e.rs) && Covered(s.credit, Price(a, e.rs), e.readable) && Price(a, e.rs) != 0
  }

  lemma RoutingReads(a: Account, s: State, e: Event)
    requires Enabled(s, e) && e.RouteDone?
    ensures var t := Apply(a, s, e);
            && t.credit == s.credit
            && t.deducting == if Reads(a, s, e) then s.deducting[e.id := Deduction(s.routing[e.id], e.rs)] else s.deducting
  {
    if Routable(s.routing[e.id], e.rs) && a.prepaid && Covered(s.credit, Price(a, e.rs), e.readable) && Price(a, e.rs) == 0 {
      assert Amount(Charge(e.id, e.rs.parts, Rate(a, e.rs))) == 0;
    }
  }

  lemma RouteKeepsBound(a: Account, s: State, e: Event, k: nat, c: nat)
    requires Bounded(a, s, k, c) && Enabled(s, e) && e.RouteDone? && e.id !in s.deducting
    requires Price(a, e.rs) <= c && |Apply(a, s, e).deducting| <= k
    ensures Bounded(a, Apply(a, s, e), k, c)
  {
    var t := Apply(a, s, e);
    RoutingReads(a, s, e);
    if Reads(a, s, e) {
      ReadKeepsBound(a, s, t, e.id, Deduction(s.routing[e.id], e.rs), k, c);
    }
  }

  lemma UpdateKeepsBound(a: Account, s: State, e: Event, k: nat, c: nat)
    requires Bounded(a, s, k, c) && Enabled(s, e) && e.Update?
    ensures Bounded(a, Apply(a, s, e), k, c)
  {
    var t := Apply(a, s, e);
    PendingWithout(a, s.deducting, e.id);
    assert t.deducting == s.deducting - {e.id};
    assert t.credit == if e.updates then s.credit - Price(a, s.deducting[e.id].rs) else s.credit;
  }

  lemma StepKeepsBound(a: Account, s: State, e: Event, k: nat, c: nat)
    requires Answered(s) && Bounded(a, s, k, c) && Enabled(s, e)
    requires (e.RouteDone? ==> Price(a, e.rs) <= c) && |Apply(a, s, e).deducting| <= k
    ensures Bounded(a, Apply(a, s, e), k, c)
  {
    match e
    case RouteDone(id, _, _, _) =>
      Elsewhere(s, id);
      RouteKeepsBound(a, s, e, k, c);
    case Update(_, _, _) => UpdateKeepsBound(a, s, e, k, c);
    case Submit(_, _, _, _) => assert Apply(a, s, e).deducting == s.deducting && Apply(a, s, e).credit == s.credit;
    case BoxDone(_, _) =>
  }

  lemma {:induction false} RunKeepsBound(a: Account, s: State, events: seq<Event>, t: State, k: nat, c: nat)
    requires Answered(s) && Bounded(a, s, k, c) && Run(a, s, events, t) && Limited(a, s, events, k, c)
    ensures Bounded(a, t, k, c)
    decreases |events|
  {
    if events != [] {
      StepKeepsAnswered(a, s, events[0]);
      StepKeepsBound(a, s, events[0], k, c);
      RunKeepsBound(a, Apply(a, s, events[0]), events[1..], t, k, c);
    }
  }

  /** With at most `k` deductions at once, each of at most `c`, a run overdraws the balance by (k - 1) * c at most. */
  lemma OverdraftIsBounded(a: Account, s: State, events: seq<Event>, t: State, k: nat, c: nat)
    requires Initial(s) && k >= 1 && Run(a, s, events, t) && Limited(a, s, events, k, c)
    ensures t.credit >= -((k - 1) * c)
  {
    Scaled(0, k - 1, c);
    RunKeepsBound(a, s, events, t, k, c);
    PendingAtMost(a, t.deducting, c);
  }

  // ------------------------------------------------------------------ the bound is reached

  lemma RunCons(a: Account, s: State, e: Event, rest: seq<Event>, t: State)
    requires Enabled(s, e) && Run(a, Apply(a, s, e), rest, t)
    ensures Run(a, s, [e] + rest, t)
  {
    assert ([e] + rest)[1..] == rest;
  }

  lemma LimitedCons(a: Account, s: State, e: Event, rest: seq<Event>, k: nat, c: nat)
    requires Enabled(s, e) && |s.deducting| <= k && (e.RouteDone? ==> Price(a, e.rs) <= c)
    requires Limited(a, Apply(a, s, e), rest, k, c)
    ensures Limited(a, s, [e] + rest, k, c)
  {
    assert ([e] + rest)[1..] == rest;
  }

  function Prepaid(): Account {
    Account(true, false, 0, 0, 0, 0, false, true, true, false, 0)
  }

  function AnyRequest(): Request {
    Request(SubmitSm, 1, None, 0, Some("1"), 0, false, false, [])
  }

  lemma AnyRequestWaits(count: nat)
    ensures Handle(Prepaid(), AnyRequest(), false, count, "u").Wait?
    ensures Simulation(Prepaid(), AnyRequest(), false, count, "u") == []
  {
  }

  lemma UpdateOne(s: State, id: nat, c: nat) returns (t: State)
    requires id in s.deducting && Price(Prepaid(), s.deducting[id].rs) == c
    ensures t == Apply(Prepaid(), s, Update(id, true, true))
    ensures t.deducting == s.deducting - {id} && t.credit == s.credit - c && |t.deducting| == |s.deducting| - 1
  {
    t := Apply(Prepaid(), s, Update(id, true, true));
    Smaller(s.deducting, id);
  }

  lemma OneMoreTime(n: nat, c: nat)
    requires n > 0
    ensures n * c == (n - 1) * c + c
  {
  }

  /** All updates of the deductions under way succeed. */
  lemma {:induction false} UpdateAll(s: State, k: nat, c: nat) returns (events: seq<Event>, t: State)
    requires |s.deducting| <= k && forall id :: id in s.deducting ==> Price(Prepaid(), s.deducting[id].rs) == c
    ensures Run(Prepaid(), s, events, t) && Limited(Prepaid(), s, events, k, c)
    ensures t.credit == s.credit - |s.deducting| * c
    decreases |s.deducting|
  {
    if s.deducting == map[] {
      events, t := [], s;
    } else {
      var id :| id in s.deducting;
      var e := Update(id, true, true);
      var next := UpdateOne(s, id, c);
      events, t := UpdateAll(next, k, c);
      RunCons(Prepaid(), s, e, events, t);
      LimitedCons(Prepaid(), s, e, events, k, c);
      events := [e] + events;
      OneMoreTime(|s.deducting|, c);
    }
  }

  /** A new request comes, is routed, and its balance is read, `n` times; then all are updated. */
  lemma {:induction false} ReadTimes(s: State, n: nat, k: nat, c: nat) returns (events: seq<Event>, t: State)
    requires |s.deducting| + n <= k && s.credit == c > 0 && |s.requests| !in s.deducting
    requires forall id :: id in s.deducting ==> id < |s.requests| && Price(Prepaid(), s.deducting[id].rs) == c
    ensures Run(Prepaid(), s, events, t) && Limited(Prepaid(), s, events, k, c)
    ensures t.credit == c - (|s.deducting| + n) * c
    decreases n
  {
    if n == 0 {
      events, t := UpdateAll(s, k, c);
    } else {
      var s2 := OneMoreRead(s, c);
      events, t := ReadTimes(s2, n - 1, k, c);
      var id, rs := |s.requests|, RouteStatus(ESME_ROK, c, 1);
      var submit, read := Submit(AnyRequest(), false, 0, "u"), RouteDone(id, rs, true, true);
      var s1 := Apply(Prepaid(), s, submit);
      RunCons(Prepaid(), s1, read, events, t);
      LimitedCons(Prepaid(), s1, read, events, k, c);
      RunCons(Prepaid(), s, submit, [read] + events, t);
      LimitedCons(Prepaid(), s, submit, [read] + events, k, c);
      events := [submit] + ([read] + events);
    }
  }

  lemma OneMoreRead(s: State, c: nat) returns (t: State)
    requires s.credit == c > 0 && |s.requests| !in s.deducting
    requires forall id :: id in s.deducting ==> id < |s.requests| && Price(Prepaid(), s.deducting[id].rs) == c
    ensures var id, rs := |s.requests|, RouteStatus(ESME_ROK, c, 1);
            var submit, read := Submit(AnyRequest(), false, 0, "u"), RouteDone(id, rs, true, true);
            var s1 := Apply(Prepaid(), s, submit);
            && s1.deducting == s.deducting && Enabled(s1, read) && Price(Prepaid(), rs) == c && t == Apply(Prepaid(), s1, read)
            && t.credit == c && |t.requests| == |s.requests| + 1 && |t.deducting| == |s.deducting| + 1
            && (forall q :: q in t.deducting ==> q < |t.requests| && Price(Prepaid(), t.deducting[q].rs) == c)
  {
    AnyRequestWaits(0);
    var id, rs := |s.requests|, RouteStatus(ESME_ROK, c, 1);
    var s1, read := Apply(Prepaid(), s, Submit(AnyRequest(), false, 0, "u")), RouteDone(id, rs, true, true);
    assert s1 == s.(requests := s1.requests, routing := s1.routing, simulated := s1.simulated) && id in s1.routing;
    PriceOfOne(c);
    t := Apply(Prepaid(), s1, read);
    RoutingReads(Prepaid(), s1, read);
    Smaller(t.deducting, id);
    assert t.deducting - {id} == s.deducting && t.requests == s1.requests;
  }

  lemma PriceOfOne(c: nat)
    ensures Price(Prepaid(), RouteStatus(ESME_ROK, c, 1)) == c
  {
  }

  /** For every `k` and `c` some run reaches the bound. */
  lemma OverdraftIsReached(k: nat, c: nat) returns (a: Account, s: State, events: seq<Event>, t: State)
    requires k >= 1
    ensures Initial(s) && Run(a, s, events, t) && Limited(a, s, events, k, c) && t.credit == -((k - 1) * c)
  {
    a, s := Prepaid(), State([], map[], map[], map[], [], c, [], {}, []);
    if c == 0 {
      events, t := [], s;
      assert (k - 1) * c == 0;
    } else {
      assert |s.deducting| == 0;
      events, t := ReadTimes(s, k, k, c);
      OneMoreTime(k, c);
    }
  }

  ghost predicate Possible(a: Account, s: State, events: seq<Event>, t: State, k: nat, c: nat) {
    Initial(s) && Run(a, s, events, t) && Limited(a, s, events, k, c)
  }

  /** So the balance never goes below zero, in any run of any account, exactly when one deduction is made at a
      time or messages are free. */
  lemma NeverOverdrawnIff(k: nat, c: nat)
    requires k >= 1
    ensures (forall a, s, events, t :: Possible(a, s, events, t, k, c) ==> t.credit >= 0) <==> k == 1 || c == 0
  {
    if k == 1 || c == 0 {
      forall a, s, events, t | Possible(a, s, events, t, k, c) ensures t.credit >= 0 {
        OverdraftIsBounded(a, s, events, t, k, c);
        assert (k - 1) * c == 0;
      }
    } else {
      var a, s, events, t := OverdraftIsReached(k, c);
      assert (k - 1) * c > 0;
      assert Possible(a, s, events, t, k, c) && t.credit < 0;
    }
  }
}
