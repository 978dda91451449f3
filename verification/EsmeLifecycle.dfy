/** The life of a client connection: binds, the references that other parts hold, and the cleanup pass that
    finally destroys it, in steps as small as what may run beside the pass. */
module EsmeLifecycle {
  import opened Common

  const CLEANUP_QUEUE_DELAY: int := 10

  type Esme = nat

  /** One element of one account's bind list. */
  datatype Entry = Entry(account: string, esme: Esme)

  /** Where the cleanup pass is. It holds the write lock on the ESME data except when `Idle`. `swaps` is
      false when the cleanup queue was empty, so that it is left as it is. */
  datatype Phase =
    | Idle
    | Scanning(todo: seq<Entry>, kept: seq<Entry>)
    | Sweeping(queue: seq<Esme>, left: seq<Esme>, swaps: bool)

  datatype Roster = Roster(known: set<Esme>, connected: set<Esme>, authenticated: set<Esme>, binds: seq<Entry>,
                           cleanup: seq<Esme>, phase: Phase, destroyed: multiset<Esme>)

  datatype Counters = Counters(inboundQueued: int, outboundQueued: int, pendingRouting: int)

  datatype Held = Held(esme: Esme, since: int)

  /** The elements of the two shared queues and the pending routes, by ESME, with the counters each ESME
      keeps of its own. `answering` are the routing callbacks that have lowered the counter and not yet
      answered; `hand` is what the queue threads have taken and not finished with. */
  datatype Books = Books(inbound: multiset<Esme>, outbound: multiset<Esme>, routing: multiset<Esme>, answering: multiset<Esme>,
                         counters: map<Esme, Counters>, last: map<Esme, int>, hand: map<nat, Held>, now: int)

  datatype State = State(r: Roster, b: Books)

  /** What the pass makes of a connected ESME: heard from lately, due an enquire_link, or silent too long. */
  datatype Silence = Recent | Quiet | Dead

  datatype Event =
    | Connect(e: Esme)
    | Stop(e: Esme)
    | CleanupOutside(e: Esme)
    | Receive(e: Esme)
    | TakeInbound(t: nat, e: Esme)
    | Bind(t: nat, account: string)
    | StartRoute(t: nat)
    | RouteDone(e: Esme)
    | Answer(e: Esme, queued: bool)
    | Queue(e: Esme)
    | TakeOutbound(t: nat, e: Esme)
    | Finish(t: nat)
    | Tick(seconds: nat)
    | BeginPass
    | ScanNext(silence: Silence)
    | EndScan
    | SweepNext
    | EndPass

  predicate Alive(r: Roster, e: Esme) {
    e in r.known && r.destroyed[e] == 0
  }

  function Esmes(entries: seq<Entry>): set<Esme> {
    set x | x in entries :: x.esme
  }

  function AppendUnique(l: seq<Esme>, e: Esme): seq<Esme> {
    if e in l then l else l + [e]
  }

  /** smpp_esme_cleanup. What is appended while the pass replaces the queue is lost with the old queue. */
  function Cleanup(r: Roster, e: Esme): Roster {
    var lost := r.phase.Sweeping? && r.phase.swaps;
    r.(connected := r.connected - {e}, cleanup := if lost then r.cleanup else AppendUnique(r.cleanup, e))
  }

  function Depth(b: Books, e: Esme): int
    requires e in b.counters
  {
    b.counters[e].inboundQueued + b.counters[e].outboundQueued + b.counters[e].pendingRouting
  }

  predicate MayDestroy(b: Books, e: Esme) {
    e in b.counters && e in b.last && Depth(b, e) <= 0 && b.now - b.last[e] > CLEANUP_QUEUE_DELAY
  }

  /** The listener hands over a connection that it has seen unauthenticated; since then it may have been bound.
      And it may still queue PDUs after it was told to stop. */
  ghost predicate Enabled(s: State, e: Event) {
    match e
    case Connect(x) => x !in s.r.known
    case Stop(x) => true
    case CleanupOutside(x) => Alive(s.r, x)
    case Receive(x) => Alive(s.r, x) && x in s.b.counters
    case TakeInbound(t, x) => x in s.b.inbound && t !in s.b.hand && x in s.b.counters
    case Bind(t, _) => t in s.b.hand && s.r.phase.Idle?
    case StartRoute(t) => t in s.b.hand && s.r.phase.Idle? && s.b.hand[t].esme in s.b.counters
    case RouteDone(x) => x in s.b.routing && x in s.b.counters
    case Answer(x, _) => x in s.b.answering && x in s.b.counters
    case Queue(x) => Alive(s.r, x) && x in s.b.counters
    case TakeOutbound(t, x) => x in s.b.outbound && t !in s.b.hand && x in s.b.counters
    case Finish(t) => t in s.b.hand
    case Tick(_) => true
    case BeginPass => s.r.phase.Idle?
    case ScanNext(_) => s.r.phase.Scanning? && s.r.phase.todo != [] && s.r.phase.todo[0].esme in s.b.counters
    case EndScan => s.r.phase.Scanning? && s.r.phase.todo == []
    case SweepNext => s.r.phase.Sweeping? && s.r.phase.queue != []
    case EndPass => s.r.phase.Sweeping? && s.r.phase.queue == []
  }

  /** Does the pass give this ESME up? */
  predicate Condemned(r: Roster, e: Esme, silence: Silence) {
    e !in r.connected || silence.Dead?
  }

  function ScanStep(r: Roster, silence: Silence): Roster
    requires r.phase.Scanning? && r.phase.todo != []
  {
    var x := r.phase.todo[0];
    if Condemned(r, x.esme, silence)
    then Cleanup(r, x.esme).(phase := Scanning(r.phase.todo[1..], r.phase.kept))
    else r.(phase := Scanning(r.phase.todo[1..], r.phase.kept + [x]))
  }

  function SweepStep(r: Roster, destroy: bool): Roster
    requires r.phase.Sweeping? && r.phase.queue != []
  {
    var e := r.phase.queue[0];
    if destroy
    then r.(phase := r.phase.(queue := r.phase.queue[1..]), destroyed := r.destroyed + multiset{e},
            connected := r.connected - {e})
    else r.(phase := r.phase.(queue := r.phase.queue[1..], left := r.phase.left + [e]))
  }

  ghost function RosterAfter(s: State, e: Event): Roster
    requires Enabled(s, e)
  {
    var r := s.r;
    match e
    case Connect(x) => r.(known := r.known + {x}, connected := r.connected + {x})
    case Stop(x) => r.(connected := r.connected - {x})
    case CleanupOutside(x) => Cleanup(r, x)
    case Bind(t, account) =>
      var x := s.b.hand[t].esme;
      r.(authenticated := r.authenticated + {x}, binds := r.binds + [Entry(account, x)])
    case BeginPass => r.(phase := Scanning(r.binds, []))
    case ScanNext(silence) => ScanStep(r, silence)
    case EndScan => r.(binds := r.phase.kept, cleanup := [], phase := Sweeping(r.cleanup, [], r.cleanup != []))
    case SweepNext => SweepStep(r, MayDestroy(s.b, r.phase.queue[0]))
    case EndPass => r.(cleanup := r.phase.left + r.cleanup, phase := Idle)
    case _ => r
  }

  function Count(b: Books, e: Esme, c: Counters): Books {
    b.(counters := b.counters[e := c])
  }

  function QueueOutbound(b: Books, e: Esme): Books
    requires e in b.counters
  {
    var c := b.counters[e];
    Count(b.(outbound := b.outbound + multiset{e}), e, c.(outboundQueued := c.outboundQueued + 1))
  }

  ghost function BooksAfter(s: State, e: Event): Books
    requires Enabled(s, e)
  {
    var b := s.b;
    match e
    case Connect(x) => b.(counters := b.counters[x := Counters(0, 0, 0)], last := b.last[x := 0])
    case Receive(x) =>
      var c := b.counters[x];
      Count(b.(inbound := b.inbound + multiset{x}), x, c.(inboundQueued := c.inboundQueued + 1))
    case TakeInbound(t, x) =>
      var c := b.counters[x];
      Count(b.(inbound := b.inbound - multiset{x}, hand := b.hand[t := Held(x, b.now)], last := b.last[x := b.now]),
            x, c.(inboundQueued := c.inboundQueued - 1))
    case StartRoute(t) =>
      var x := b.hand[t].esme;
      var c := b.counters[x];
      Count(b.(routing := b.routing + multiset{x}), x, c.(pendingRouting := c.pendingRouting + 1))
    case RouteDone(x) =>
      var c := b.counters[x];
      Count(b.(routing := b.routing - multiset{x}, answering := b.answering + multiset{x}), x,
            c.(pendingRouting := c.pendingRouting - 1))
    case Answer(x, queued) =>
      var rest := b.(answering := b.answering - multiset{x});
      if queued then QueueOutbound(rest, x) else rest
    case Queue(x) => QueueOutbound(b, x)
    case TakeOutbound(t, x) =>
      var c := b.counters[x];
      Count(b.(outbound := b.outbound - multiset{x}, hand := b.hand[t := Held(x, b.now)], last := b.last[x := b.now]),
            x, c.(outboundQueued := c.outboundQueued - 1))
    case Finish(t) => b.(hand := b.hand - {t})
    case Tick(d) => b.(now := b.now + d)
    case ScanNext(silence) =>
      var x := s.r.phase.todo[0].esme;
      if x in s.r.connected && silence.Quiet? then QueueOutbound(b, x) else b
    case _ => b
  }

  ghost function Apply(s: State, e: Event): State
    requires Enabled(s, e)
  {
    State(RosterAfter(s, e), BooksAfter(s, e))
  }

  // ------------------------------------------------------------------ invariants

  predicate Distinct(l: seq<Esme>) {
    forall i, j :: 0 <= i < j < |l| ==> l[i] != l[j]
  }

  /** Everything the pass or the next one may destroy. */
  function Doomed(r: Roster): seq<Esme> {
    if r.phase.Sweeping? then r.phase.queue + r.phase.left + r.cleanup else r.cleanup
  }

  /** The bind list entries that will be there after the pass. */
  function Entries(r: Roster): seq<Entry> {
    if r.phase.Scanning? then r.phase.kept + r.phase.todo else r.binds
  }

  ghost predicate RosterInv(r: Roster) {
    && r.connected <= r.known && r.authenticated <= r.known
    && Distinct(Doomed(r))
    && (forall e :: e in Doomed(r) ==> Alive(r, e) && e !in r.connected)
    && (forall x :: x in Entries(r) ==> Alive(r, x.esme) && x.esme in r.authenticated)
    && (forall e :: r.destroyed[e] > 0 ==> e in r.known && e !in r.connected && r.destroyed[e] == 1)
    && (r.phase.Scanning? ==> Esmes(r.phase.kept) !! (set e | e in r.cleanup))
    && (r.phase.Sweeping? ==> Esmes(r.binds) !! (set e | e in r.phase.queue + r.phase.left))
    && (r.phase.Sweeping? ==> (r.phase.swaps ==> r.cleanup == []) && (!r.phase.swaps ==> r.phase.queue + r.phase.left == []))
  }

  /** The counters count, and a destroyed ESME is not referred to. */
  ghost predicate BooksInv(s: State) {
    && (forall e :: Alive(s.r, e) ==> e in s.b.counters && e in s.b.last && s.b.last[e] <= s.b.now)
    && (forall e :: Alive(s.r, e) ==> s.b.counters[e] == Counters(s.b.inbound[e], s.b.outbound[e], s.b.routing[e]))
    && (forall e :: !Alive(s.r, e) ==>
          s.b.inbound[e] == 0 && s.b.outbound[e] == 0 && s.b.routing[e] == 0 && s.b.answering[e] == 0)
    && s.b.now >= 0
    && (forall t :: t in s.b.hand ==> Alive(s.r, s.b.hand[t].esme) && s.b.hand[t].since <= s.b.last[s.b.hand[t].esme])
  }

  ghost predicate Inv(s: State) {
    RosterInv(s.r) && BooksInv(s)
  }

  /** The pass does not give up an ESME it has already kept for another bind. */
  predicate NotKept(r: Roster, silence: Silence) {
    r.phase.Scanning? && r.phase.todo != [] && Condemned(r, r.phase.todo[0].esme, silence) ==>
      r.phase.todo[0].esme !in Esmes(r.phase.kept)
  }

  /** When the pass looks at an ESME, no queue thread has held it for longer than the cleanup delay, and no
      routing callback is on its way to an answer. */
  ghost predicate Prompt(b: Books, e: Esme) {
    b.answering[e] == 0 && forall t :: t in b.hand && b.hand[t].esme == e ==> b.now - b.hand[t].since <= CLEANUP_QUEUE_DELAY
  }

  ghost predicate Orderly(s: State, e: Event) {
    match e
    case ScanNext(silence) => NotKept(s.r, silence)
    case CleanupOutside(x) => s.r.phase.Scanning? ==> x !in Esmes(s.r.phase.kept)
    case SweepNext => s.r.phase.Sweeping? && s.r.phase.queue != [] ==> Prompt(s.b, s.r.phase.queue[0])
    case _ => true
  }

  ghost predicate Run(s: State, events: seq<Event>, t: State)
    decreases |events|
  {
    if events == [] then s == t
    else Enabled(s, events[0]) && Run(Apply(s, events[0]), events[1..], t)
  }

  ghost predicate OrderlyRun(s: State, events: seq<Event>, t: State)
    decreases |events|
  {
    if events == [] then s == t
    else Enabled(s, events[0]) && Orderly(s, events[0]) && OrderlyRun(Apply(s, events[0]), events[1..], t)
  }

  ghost predicate Initial(s: State) {
    && s.r == Roster({}, {}, {}, [], [], Idle, multiset{})
    && s.b.inbound == multiset{} && s.b.outbound == multiset{} && s.b.routing == multiset{} && s.b.answering == multiset{}
    && s.b.hand == map[] && s.b.now >= 0
  }

  // ------------------------------------------------------------------ the roster

  lemma CleanupKeeps(r: Roster, e: Esme)
    requires RosterInv(r) && Alive(r, e)
    requires r.phase.Scanning? ==> e !in Esmes(r.phase.kept)
    ensures RosterInv(Cleanup(r, e))
  {
    var t := Cleanup(r, e);
    if t.cleanup != r.cleanup {
      if r.phase.Sweeping? {
        assert Doomed(r) == r.cleanup && Doomed(t) == t.cleanup;
      }
      assert Doomed(t) == Doomed(r) + [e];
      assert e !in Doomed(r);
      Appended(Doomed(r), e);
    }
  }

  lemma Appended(l: seq<Esme>, e: Esme)
    requires Distinct(l) && e !in l
    ensures Distinct(l + [e])
  {
    assert forall i :: 0 <= i < |l| ==> (l + [e])[i] == l[i] && l[i] in l;
  }

  lemma ScanKeeps(r: Roster, silence: Silence)
    requires RosterInv(r) && r.phase.Scanning? && r.phase.todo != [] && NotKept(r, silence)
    ensures RosterInv(ScanStep(r, silence))
  {
    var x := r.phase.todo[0];
    var kept, todo := r.phase.kept, r.phase.todo;
    assert x in Entries(r);
    if Condemned(r, x.esme, silence) {
      CleanupKeeps(r, x.esme);
      var c := Cleanup(r, x.esme);
      var t := c.(phase := Scanning(todo[1..], kept));
      assert forall y :: y in Entries(t) ==> y in Entries(r);
    } else {
      var t := r.(phase := Scanning(todo[1..], kept + [x]));
      assert kept + [x] + todo[1..] == kept + todo;
      assert Esmes(kept + [x]) == Esmes(kept) + {x.esme};
      assert x.esme in r.cleanup ==> x.esme in Doomed(r);
    }
  }

  lemma Head(e: Esme, rest: seq<Esme>)
    requires Distinct([e] + rest)
    ensures Distinct(rest) && e !in rest
  {
    var all := [e] + rest;
    forall i | 0 <= i < |rest| ensures rest[i] == all[i + 1] != all[0] {}
  }

  lemma SweepKeeps(r: Roster, destroy: bool)
    requires RosterInv(r) && r.phase.Sweeping? && r.phase.queue != []
    ensures RosterInv(SweepStep(r, destroy))
    ensures r.phase.queue[0] !in Esmes(r.binds) && r.phase.queue[0] !in r.phase.queue[1..] + r.phase.left + r.cleanup
  {
    var e, rest := r.phase.queue[0], r.phase.queue[1..];
    assert r.phase.queue == [e] + rest && r.cleanup == [];
    assert Doomed(r) == [e] + (rest + r.phase.left);
    assert e in Doomed(r) && e in (set x | x in r.phase.queue + r.phase.left);
    Head(e, rest + r.phase.left);
    if destroy { DestroyKeeps(r); } else { SpareKeeps(r); }
  }

  lemma DestroyKeeps(r: Roster)
    requires RosterInv(r) && r.phase.Sweeping? && r.phase.queue != [] && r.cleanup == []
    requires r.phase.queue[0] !in Esmes(r.binds) && Alive(r, r.phase.queue[0])
    requires var l := r.phase.queue[1..] + r.phase.left; Distinct(l) && r.phase.queue[0] !in l
    ensures RosterInv(SweepStep(r, true))
  {
    var e, l := r.phase.queue[0], r.phase.queue[1..] + r.phase.left;
    var t := SweepStep(r, true);
    assert Doomed(t) == l && forall x :: x in l ==> x in r.phase.queue + r.phase.left && x in Doomed(r);
    forall x | x in Entries(t) ensures x.esme != e {
      assert x.esme in Esmes(r.binds);
    }
  }

  lemma SpareKeeps(r: Roster)
    requires RosterInv(r) && r.phase.Sweeping? && r.phase.queue != [] && r.cleanup == []
    ensures RosterInv(SweepStep(r, false))
  {
    var q, left := r.phase.queue, r.phase.left;
    Regrouped(q, left);
    Rotated(q[0], q[1..], left);
    Reordered(r, SweepStep(r, false));
  }

  lemma Regrouped(q: seq<Esme>, left: seq<Esme>)
    requires q != []
    ensures q + left == [q[0]] + (q[1..] + left)
    ensures q + left + [] == q + left && q[1..] + (left + [q[0]]) + [] == q[1..] + (left + [q[0]])
  {
  }

  /** The order of the queue being swept does not matter. */
  lemma Reordered(r: Roster, t: Roster)
    requires RosterInv(r) && r.phase.Sweeping? && r.phase.swaps && t.phase.Sweeping? && t.phase.swaps
    requires t == r.(phase := t.phase) && Distinct(Doomed(t)) && r.cleanup == []
    requires forall x :: x in t.phase.queue + t.phase.left <==> x in r.phase.queue + r.phase.left
    ensures RosterInv(t)
  {
    assert Doomed(t) == t.phase.queue + t.phase.left && Doomed(r) == r.phase.queue + r.phase.left;
    assert Entries(t) == Entries(r);
  }

  lemma Rotated(e: Esme, rest: seq<Esme>, left: seq<Esme>)
    requires Distinct([e] + (rest + left))
    ensures Distinct(rest + (left + [e]))
    ensures forall x :: x in rest + (left + [e]) <==> x in [e] + (rest + left)
  {
    var before, after := [e] + (rest + left), rest + (left + [e]);
    assert forall i :: 0 <= i < |after| - 1 ==> after[i] == before[i + 1];
    assert after[|after| - 1] == before[0];
  }

  lemma PhaseKeeps(s: State, e: Event)
    requires RosterInv(s.r) && Enabled(s, e) && (e.BeginPass? || e.EndScan? || e.EndPass?)
    ensures RosterInv(RosterAfter(s, e))
  {
    var r, t := s.r, RosterAfter(s, e);
    match e
    case BeginPass => assert Entries(t) == r.binds; assert Esmes([]) == {};
    case EndScan =>
      assert Doomed(t) == r.cleanup && Entries(r) == r.phase.kept;
      assert r.cleanup + [] == r.cleanup;
    case EndPass =>
      assert Doomed(t) == r.phase.left + r.cleanup == Doomed(r);
  }

  lemma RosterStepKeeps(s: State, e: Event)
    requires RosterInv(s.r) && Enabled(s, e) && Orderly(s, e)
    requires forall t :: t in s.b.hand ==> Alive(s.r, s.b.hand[t].esme)
    ensures RosterInv(RosterAfter(s, e))
  {
    match e
    case CleanupOutside(x) => CleanupKeeps(s.r, x);
    case ScanNext(silence) => ScanKeeps(s.r, silence);
    case SweepNext => SweepKeeps(s.r, MayDestroy(s.b, s.r.phase.queue[0]));
    case BeginPass => PhaseKeeps(s, e);
    case EndScan => PhaseKeeps(s, e);
    case EndPass => PhaseKeeps(s, e);
    case _ =>
  }

  // ------------------------------------------------------------------ the books

  lemma SameLives(s: State, e: Event)
    requires RosterInv(s.r) && Enabled(s, e) && !e.SweepNext? && !e.Connect?
    ensures forall x :: Alive(RosterAfter(s, e), x) <==> Alive(s.r, x)
  {
  }

  lemma BooksStepKeeps(s: State, e: Event)
    requires Inv(s) && Enabled(s, e) && Orderly(s, e)
    ensures BooksInv(Apply(s, e))
  {
    match e
    case SweepNext => SweepKeepsBooks(s);
    case Connect(x) => ConnectKeepsBooks(s, x);
    case TakeInbound(t, x) => TakeInboundKeepsBooks(s, t, x);
    case TakeOutbound(t, x) => TakeOutboundKeepsBooks(s, t, x);
    case Receive(_) => ReceiveKeepsBooks(s, e);
    case Queue(x) => QueueKeepsBooks(s, Apply(s, e), x);
    case ScanNext(silence) =>
      SameLives(s, e);
      ScanKeepsBooks(s, silence);
    case StartRoute(_) => StartRouteKeepsBooks(s, e);
    case RouteDone(_) => RouteDoneKeepsBooks(s, e);
    case Answer(_, _) => AnswerKeepsBooks(s, e);
    case _ => SameLives(s, e);
  }

  lemma ConnectKeepsBooks(s: State, x: Esme)
    requires Inv(s) && Enabled(s, Connect(x))
    ensures BooksInv(Apply(s, Connect(x)))
  {
    var t := Apply(s, Connect(x));
    assert !Alive(s.r, x);
    assert forall y :: Alive(t.r, y) <==> Alive(s.r, y) || y == x;
  }

  lemma TakeInboundKeepsBooks(s: State, t: nat, x: Esme)
    requires Inv(s) && Enabled(s, TakeInbound(t, x))
    ensures BooksInv(Apply(s, TakeInbound(t, x)))
  {
    assert Alive(s.r, x) && RosterAfter(s, TakeInbound(t, x)) == s.r;
  }

  lemma TakeOutboundKeepsBooks(s: State, t: nat, x: Esme)
    requires Inv(s) && Enabled(s, TakeOutbound(t, x))
    ensures BooksInv(Apply(s, TakeOutbound(t, x)))
  {
    assert Alive(s.r, x) && RosterAfter(s, TakeOutbound(t, x)) == s.r;
  }

  /** One live ESME's queue elements or routes change, together with its counters. */
  lemma RecountKeepsBooks(s: State, t: State, x: Esme)
    requires BooksInv(s) && Alive(s.r, x) && forall y :: Alive(t.r, y) <==> Alive(s.r, y)
    requires t.b.now == s.b.now && t.b.last == s.b.last && t.b.hand == s.b.hand
    requires x in t.b.counters && t.b.counters[x] == Counters(t.b.inbound[x], t.b.outbound[x], t.b.routing[x])
    requires forall y :: y in s.b.counters && y != x ==> y in t.b.counters && t.b.counters[y] == s.b.counters[y]
    requires forall y :: y != x ==> t.b.inbound[y] == s.b.inbound[y] && t.b.outbound[y] == s.b.outbound[y]
    requires forall y :: y != x ==> t.b.routing[y] == s.b.routing[y] && t.b.answering[y] == s.b.answering[y]
    ensures BooksInv(t)
  {
  }

  lemma ReceiveKeepsBooks(s: State, e: Event)
    requires Inv(s) && Enabled(s, e) && e.Receive?
    ensures BooksInv(Apply(s, e))
  {
    assert Alive(s.r, e.e) && s.b.counters[e.e] == Counters(s.b.inbound[e.e], s.b.outbound[e.e], s.b.routing[e.e]);
    RecountKeepsBooks(s, Apply(s, e), e.e);
  }

  lemma QueueKeepsBooks(s: State, t: State, x: Esme)
    requires BooksInv(s) && Alive(s.r, x) && forall y :: Alive(t.r, y) <==> Alive(s.r, y)
    requires t.b == QueueOutbound(s.b, x)
    ensures BooksInv(t)
  {
    assert s.b.counters[x] == Counters(s.b.inbound[x], s.b.outbound[x], s.b.routing[x]);
    RecountKeepsBooks(s, t, x);
  }

  lemma ScanKeepsBooks(s: State, silence: Silence)
    requires Inv(s) && Enabled(s, ScanNext(silence))
    requires forall x :: Alive(RosterAfter(s, ScanNext(silence)), x) <==> Alive(s.r, x)
    ensures BooksInv(Apply(s, ScanNext(silence)))
  {
    var x := s.r.phase.todo[0];
    assert x in Entries(s.r);
    if x.esme in s.r.connected && silence.Quiet? {
      QueueKeepsBooks(s, Apply(s, ScanNext(silence)), x.esme);
    } else {
      assert Apply(s, ScanNext(silence)).b == s.b;
    }
  }

  lemma StartRouteKeepsBooks(s: State, e: Event)
    requires Inv(s) && Enabled(s, e) && e.StartRoute?
    ensures BooksInv(Apply(s, e))
  {
    var x := s.b.hand[e.t].esme;
    assert Alive(s.r, x) && s.b.counters[x] == Counters(s.b.inbound[x], s.b.outbound[x], s.b.routing[x]);
    RecountKeepsBooks(s, Apply(s, e), x);
  }

  lemma RouteDoneKeepsBooks(s: State, e: Event)
    requires Inv(s) && Enabled(s, e) && e.RouteDone?
    ensures BooksInv(Apply(s, e))
  {
    assert Alive(s.r, e.e) && s.b.counters[e.e] == Counters(s.b.inbound[e.e], s.b.outbound[e.e], s.b.routing[e.e]);
    RecountKeepsBooks(s, Apply(s, e), e.e);
  }

  lemma AnswerKeepsBooks(s: State, e: Event)
    requires Inv(s) && Enabled(s, e) && e.Answer?
    ensures BooksInv(Apply(s, e))
  {
    assert Alive(s.r, e.e) && s.b.counters[e.e] == Counters(s.b.inbound[e.e], s.b.outbound[e.e], s.b.routing[e.e]);
    RecountKeepsBooks(s, Apply(s, e), e.e);
  }

  /** A destroyed ESME has no queued PDU, no pending route and no thread working on it. */
  lemma SweepKeepsBooks(s: State)
    requires Inv(s) && Enabled(s, SweepNext) && Orderly(s, SweepNext)
    ensures BooksInv(Apply(s, SweepNext))
    ensures var e := s.r.phase.queue[0];
            MayDestroy(s.b, e) ==>
              s.b.inbound[e] == 0 && s.b.outbound[e] == 0 && s.b.routing[e] == 0 && s.b.answering[e] == 0
              && forall t :: t in s.b.hand ==> s.b.hand[t].esme != e
  {
    var e := s.r.phase.queue[0];
    assert e in Doomed(s.r);
    if MayDestroy(s.b, e) {
      forall t | t in s.b.hand ensures s.b.hand[t].esme != e {}
    }
  }

  lemma StepKeepsInv(s: State, e: Event)
    requires Inv(s) && Enabled(s, e) && Orderly(s, e)
    ensures Inv(Apply(s, e))
  {
    RosterStepKeeps(s, e);
    BooksStepKeeps(s, e);
  }

  lemma {:induction false} RunKeepsInv(s: State, events: seq<Event>, t: State)
    requires Inv(s) && OrderlyRun(s, events, t)
    ensures Inv(t)
    decreases |events|
  {
    if events != [] {
      StepKeepsInv(s, events[0]);
      RunKeepsInv(Apply(s, events[0]), events[1..], t);
    }
  }

  lemma InitialIsInv(s: State)
    requires Initial(s)
    ensures Inv(s)
  {
  }

  /** When the pass destroys an ESME, no account lists it, it was in the cleanup queue once, no queue
      element, pending route or queue thread refers to it, and it had not been destroyed before. */
  lemma DestroyedIsUnreferenced(s: State, events: seq<Event>, t: State)
    requires Initial(s) && OrderlyRun(s, events, t)
    requires Enabled(t, SweepNext) && Orderly(t, SweepNext) && MayDestroy(t.b, t.r.phase.queue[0])
    ensures var e := t.r.phase.queue[0];
            && (forall x :: x in t.r.binds ==> x.esme != e)
            && e !in t.r.phase.queue[1..] && e !in t.r.phase.left && e !in t.r.cleanup && e !in t.r.connected
            && t.b.inbound[e] == 0 && t.b.outbound[e] == 0 && t.b.routing[e] == 0 && t.b.answering[e] == 0
            && (forall h :: h in t.b.hand ==> t.b.hand[h].esme != e)
            && t.r.destroyed[e] == 0 && Apply(t, SweepNext).r.destroyed[e] == 1
  {
    InitialIsInv(s);
    RunKeepsInv(s, events, t);
    var e := t.r.phase.queue[0];
    SweepKeeps(t.r, true);
    SweepKeepsBooks(t);
    assert e in Doomed(t.r);
    forall x | x in t.r.binds ensures x.esme != e {
      assert x.esme in Esmes(t.r.binds);
    }
  }

  /** No ESME is destroyed twice, and none comes back. */
  lemma DestroyedAtMostOnce(s: State, events: seq<Event>, t: State)
    requires Initial(s) && OrderlyRun(s, events, t)
    ensures forall e :: t.r.destroyed[e] <= 1
    ensures forall e :: t.r.destroyed[e] == 1 ==>
              e !in t.r.connected && e !in Doomed(t.r) && forall x :: x in Entries(t.r) ==> x.esme != e
  {
    InitialIsInv(s);
    RunKeepsInv(s, events, t);
  }

  /** Whatever happens, a connection once gone stays gone. */
  lemma {:induction false} ConnectedNeverReturns(s: State, events: seq<Event>, t: State, e: Esme)
    requires Run(s, events, t) && e in s.r.known && e !in s.r.connected
    ensures e in t.r.known && e !in t.r.connected
    decreases |events|
  {
    if events != [] {
      ConnectedNeverReturns(Apply(s, events[0]), events[1..], t, e);
    }
  }

  /** A routing callback lowers the counter first and refreshes nothing: if its ESME is next in the sweep and
      otherwise done with, it is destroyed before the callback answers. While the route was pending it would
      have been spared. */
  lemma RoutingCallbackCanOutliveItsEsme(s: State, e: Esme)
    requires Inv(s) && Enabled(s, SweepNext) && s.r.phase.queue[0] == e && e in s.b.counters && e in s.b.last
    requires s.b.inbound[e] == s.b.outbound[e] == 0 && s.b.routing[e] == 1
    requires s.b.now - s.b.last[e] > CLEANUP_QUEUE_DELAY
    ensures Apply(s, SweepNext).r.destroyed[e] == 0
    ensures Enabled(s, RouteDone(e)) && Enabled(Apply(s, RouteDone(e)), SweepNext)
    ensures var t := Apply(Apply(s, RouteDone(e)), SweepNext); t.r.destroyed[e] == 1 && t.b.answering[e] > 0
  {
    assert e in Doomed(s.r);
  }

  /** No queue element, route, callback or thread refers to an ESME that is no more. */
  ghost predicate NoneDangles(s: State) {
    forall e :: s.r.destroyed[e] > 0 ==>
      && s.b.inbound[e] == 0 && s.b.outbound[e] == 0 && s.b.routing[e] == 0 && s.b.answering[e] == 0
      && forall t :: t in s.b.hand ==> s.b.hand[t].esme != e
  }

  /** A sweep leaves nothing referring to a destroyed ESME exactly when it spares the next one, or no routing
      callback is on its way to an answer for it and no queue thread has held it for longer than the delay. */
  lemma SweepIsSafeIff(s: State)
    requires Inv(s) && Enabled(s, SweepNext)
    ensures var e := s.r.phase.queue[0];
            NoneDangles(Apply(s, SweepNext)) <==> MayDestroy(s.b, e) ==> Prompt(s.b, e)
  {
    var e, n := s.r.phase.queue[0], Apply(s, SweepNext);
    assert e in Doomed(s.r) && Alive(s.r, e);
    assert s.b.counters[e] == Counters(s.b.inbound[e], s.b.outbound[e], s.b.routing[e]);
    if MayDestroy(s.b, e) {
      assert n.r.destroyed[e] > 0;
    }
  }

  // ------------------------------------------------------------------ one ESME in several bind lists

  /** A step of the scan keeps the invariant exactly when it does not give up an ESME already kept. */
  lemma SplitVerdictIff(s: State, silence: Silence)
    requires Inv(s) && Enabled(s, ScanNext(silence))
    ensures Inv(Apply(s, ScanNext(silence))) <==> NotKept(s.r, silence)
  {
    var t := Apply(s, ScanNext(silence));
    if NotKept(s.r, silence) {
      StepKeepsInv(s, ScanNext(silence));
    } else {
      var e := s.r.phase.todo[0].esme;
      assert e in t.r.cleanup && e in (set x | x in t.r.cleanup) && e in Esmes(t.r.phase.kept);
    }
  }

  /** With one bind to an ESME the condition holds by itself. */
  lemma SingleBindIsSafe(r: Roster, silence: Silence)
    requires r.phase.Scanning?
    requires forall i, j :: 0 <= i < j < |Entries(r)| ==> Entries(r)[i].esme != Entries(r)[j].esme
    ensures NotKept(r, silence)
  {
    if r.phase.todo != [] {
      var n := |r.phase.kept|;
      forall i | 0 <= i < n ensures r.phase.kept[i].esme != r.phase.todo[0].esme {
        assert Entries(r)[i] == r.phase.kept[i] && Entries(r)[n] == r.phase.todo[0];
      }
    }
  }

  lemma RunCons(s: State, e: Event, rest: seq<Event>, t: State)
    requires Enabled(s, e) && Run(Apply(s, e), rest, t)
    ensures Run(s, [e] + rest, t)
  {
    assert ([e] + rest)[1..] == rest;
  }

  lemma SweepTheOnlyOne(s: State, e: Esme) returns (events: seq<Event>, t: State)
    requires s.r.phase.Scanning? && s.r.phase.todo == [] && s.r.cleanup == [e] && MayDestroy(s.b, e)
    ensures Run(s, events, t) && t.r.destroyed[e] == s.r.destroyed[e] + 1 && t.r.binds == s.r.phase.kept
  {
    var swept := Apply(s, EndScan);
    t := Apply(swept, SweepNext);
    RunCons(swept, SweepNext, [], t);
    RunCons(s, EndScan, [SweepNext] + [], t);
    events := [EndScan] + ([SweepNext] + []);
  }

  /** And with two it can fail: the client goes away between the two entries, and is destroyed by the same
      pass while the first of them is still listed. */
  lemma SplitVerdictDestroysListedEsme(s: State, e: Esme) returns (events: seq<Event>, t: State)
    requires Inv(s) && Enabled(s, BeginPass) && s.r.cleanup == [] && e in s.r.connected
    requires s.r.binds == [Entry("a", e), Entry("b", e)]
    requires s.b.inbound[e] == s.b.outbound[e] == s.b.routing[e] == 0 && s.b.now - s.b.last[e] > CLEANUP_QUEUE_DELAY
    ensures Run(s, events, t) && t.r.destroyed[e] == 1 && Entry("a", e) in t.r.binds
  {
    assert s.r.binds[0] in Entries(s.r);
    var s1 := Apply(s, BeginPass);
    var s2 := Apply(s1, ScanNext(Recent));
    assert s2.b == s.b && s2.r.phase == Scanning([Entry("b", e)], [Entry("a", e)]);
    assert s2.r.cleanup == [] && s2.r.destroyed[e] == 0;
    events, t := GoneAfterFirstEntry(s2, e);
    RunCons(s1, ScanNext(Recent), events, t);
    RunCons(s, BeginPass, [ScanNext(Recent)] + events, t);
    events := [BeginPass] + ([ScanNext(Recent)] + events);
  }

  lemma GoneAfterFirstEntry(s: State, e: Esme) returns (events: seq<Event>, t: State)
    requires s.r.phase == Scanning([Entry("b", e)], [Entry("a", e)]) && s.r.cleanup == []
    requires MayDestroy(s.b, e) && s.r.destroyed[e] == 0
    ensures Run(s, events, t) && t.r.destroyed[e] == 1 && Entry("a", e) in t.r.binds
  {
    var s3 := Apply(s, Stop(e));
    var s4 := Apply(s3, ScanNext(Recent));
    assert s4.r.cleanup == [e] && s4.r.phase == Scanning([], [Entry("a", e)]) && s4.b == s.b;
    events, t := SweepTheOnlyOne(s4, e);
    RunCons(s3, ScanNext(Recent), events, t);
    RunCons(s, Stop(e), [ScanNext(Recent)] + events, t);
    events := [Stop(e)] + ([ScanNext(Recent)] + events);
  }

  /** A connection handed over for cleanup is forgotten - it is not connected, in no bind list, and in no queue
      that a pass will look at - exactly when the pass is replacing the queue and no account lists it. */
  lemma LateCleanupIsForgotten(s: State, e: Esme)
    requires Inv(s) && Enabled(s, CleanupOutside(e)) && e !in Doomed(s.r)
    ensures var r := Apply(s, CleanupOutside(e)).r;
            (e !in Doomed(r) && e !in r.connected && forall x :: x in Entries(r) ==> x.esme != e)
            <==> s.r.phase.Sweeping? && s.r.phase.swaps && forall x :: x in Entries(s.r) ==> x.esme != e
  {
    var r := Apply(s, CleanupOutside(e)).r;
    if !(s.r.phase.Sweeping? && s.r.phase.swaps) {
      assert e in r.cleanup && e in Doomed(r);
    }
  }
}
