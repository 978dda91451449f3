/** The outbound side of one bound ESME: the queue of PDUs to send, the window of deliver_sm PDUs waiting
    for their response, the admitters that fill it, and the steps that empty it. */
module EsmeWindow {
  import opened Common

  const CLEANUP_QUEUE_DELAY: int := 10

  /** A deliver_sm carries a callback and the ESME's own sequence number; everything else has no
      callback and is told apart by `uid`. */
  datatype Pdu = Deliver(seqNo: int) | Plain(uid: nat)

  datatype Held = Held(pdu: Pdu, since: int)

  /** What does not change: the size of the window, the time allowed for a response, and the most PDUs one
      admitter adds for one pick. */
  datatype Setup = Setup(maxOpenAcks: int, waitAckTime: int, parts: nat)

  /** `hand` is what the sending threads have dequeued and not yet sent. `timeSent` holds the time stamps of
      deliver_sm PDUs, 0 until sent. `credits` is what each admitter may still add since its last pick.
      `called` and `freed` are history. */
  datatype State = State(
    connected: bool, destroyed: bool, now: int, lastProcess: int, nextSeq: int, nextUid: nat,
    queue: set<Pdu>, hand: map<nat, Held>, open: set<int>, timeSent: map<int, int>, credits: seq<nat>,
    called: multiset<int>, freed: multiset<Pdu>)

  datatype Event =
    | Pick(admitter: nat)
    | Admit(admitter: nat, stamp: int)
    | Quit(admitter: nat)
    | Reply(usesSequence: bool)
    | Dequeue(sender: nat, p: Pdu)
    | Send(sender: nat)
    | Ack(seqNo: int)
    | Expire(seqNo: int)
    | Tick(seconds: nat)
    | Disconnect
    | Destroy

  /** The room find_best_receiver asks for, in the queue and in the window. */
  predicate HasRoom(c: Setup, s: State) {
    s.connected && |s.queue| < c.maxOpenAcks && |s.open| < c.maxOpenAcks
  }

  predicate Expired(c: Setup, s: State, seqNo: int) {
    seqNo in s.open && seqNo in s.timeSent && s.timeSent[seqNo] > 0 && s.now - s.timeSent[seqNo] > c.waitAckTime
  }

  ghost predicate Enabled(c: Setup, s: State, e: Event) {
    match e
    case Pick(a) => a < |s.credits| && s.credits[a] == 0 && HasRoom(c, s) && !s.destroyed
    case Admit(a, _) => a < |s.credits| && s.credits[a] > 0 && !s.destroyed
    case Quit(a) => a < |s.credits|
    case Reply(_) => !s.destroyed
    case Dequeue(t, p) => p in s.queue && t !in s.hand
    case Send(t) => t in s.hand
    case Ack(_) => !s.destroyed
    case Expire(q) => s.connected && Expired(c, s, q)
    case Tick(_) => true
    case Disconnect => true
    case Destroy => !s.destroyed && !s.connected && s.queue == {} && s.now - s.lastProcess > CLEANUP_QUEUE_DELAY
  }

  function Delivers(q: set<int>): multiset<Pdu> {
    multiset(set x | x in q :: Deliver(x))
  }

  /** Running a callback also frees its PDU. */
  ghost function Call(s: State, seqNo: int): State {
    s.(open := s.open - {seqNo}, called := s.called + multiset{seqNo}, freed := s.freed + multiset{Deliver(seqNo)})
  }

  ghost function Apply(c: Setup, s: State, e: Event): State
    requires Enabled(c, s, e)
  {
    match e
    case Pick(a) => s.(credits := s.credits[a := c.parts])
    case Admit(a, stamp) =>
      s.(credits := s.credits[a := s.credits[a] - 1], nextSeq := s.nextSeq + 1,
         open := s.open + {s.nextSeq}, queue := s.queue + {Deliver(s.nextSeq)}, timeSent := s.timeSent[s.nextSeq := stamp])
    case Quit(a) => s.(credits := s.credits[a := 0])
    case Reply(usesSequence) =>
      s.(nextUid := s.nextUid + 1, queue := s.queue + {Plain(s.nextUid)},
         nextSeq := if usesSequence then s.nextSeq + 1 else s.nextSeq)
    case Dequeue(t, p) => s.(queue := s.queue - {p}, hand := s.hand[t := Held(p, s.now)], lastProcess := s.now)
    case Send(t) =>
      var p := s.hand[t].pdu;
      var rest := s.(hand := s.hand - {t});
      (match p
       case Plain(_) => rest.(freed := s.freed + multiset{p})
       case Deliver(q) => if s.connected then rest.(timeSent := s.timeSent[q := s.now]) else rest)
    case Ack(q) =>
      var seen := s.(lastProcess := s.now);
      if q in s.open then Call(seen, q) else seen
    case Expire(q) => Call(s, q)
    case Tick(d) => s.(now := s.now + d)
    case Disconnect => s.(connected := false)
    case Destroy =>
      s.(destroyed := true, open := {}, called := s.called + multiset(s.open), freed := s.freed + Delivers(s.open))
  }

  ghost predicate Run(c: Setup, s: State, events: seq<Event>, t: State)
    decreases |events|
  {
    if events == [] then s == t
    else Enabled(c, s, events[0]) && Run(c, Apply(c, s, events[0]), events[1..], t)
  }

  ghost predicate Initial(c: Setup, s: State) {
    && c.maxOpenAcks >= 1 && s.connected && !s.destroyed && s.now > 0 && s.lastProcess == s.now
    && s.nextSeq == 1 && s.nextUid == 0 && s.queue == {} && s.hand == map[] && s.open == {} && s.timeSent == map[]
    && (forall a :: 0 <= a < |s.credits| ==> s.credits[a] == 0)
    && s.called == multiset{} && s.freed == multiset{}
  }

  // ------------------------------------------------------------------ callbacks

  /** Still waiting to be sent: in the queue or in a sending thread's hand. */
  ghost predicate Unsent(s: State, p: Pdu) {
    p in s.queue || exists t :: t in s.hand && s.hand[t].pdu == p
  }

  /** Every deliver_sm ever numbered for admission is in the window, or has had its callback run, once. */
  ghost predicate Ledger(s: State) {
    && (forall q :: q in s.timeSent ==> s.called[q] + (if q in s.open then 1 else 0) == 1)
    && (forall q :: q !in s.timeSent ==> s.called[q] == 0 && q !in s.open)
    && (forall q :: q in s.timeSent ==> q < s.nextSeq)
  }

  /** What is freed is what was called back, and the replies that were sent. */
  ghost predicate Freeing(s: State) {
    && (forall q :: s.freed[Deliver(q)] == s.called[q])
    && (forall u: nat :: s.freed[Plain(u)] <= 1)
    && (forall u: nat :: s.freed[Plain(u)] > 0 ==> u < s.nextUid && !Unsent(s, Plain(u)))
  }

  /** An unsent PDU is in one place, is not stamped, and its callback is still to come. */
  ghost predicate Custody(s: State) {
    && (forall q :: Unsent(s, Deliver(q)) ==> q in s.open && q in s.timeSent && s.timeSent[q] == 0)
    && (forall u: nat :: Unsent(s, Plain(u)) ==> u < s.nextUid)
    && (forall t :: t in s.hand ==> s.hand[t].pdu !in s.queue && s.hand[t].since <= s.lastProcess)
    && (forall t, u :: t in s.hand && u in s.hand && s.hand[t].pdu == s.hand[u].pdu ==> t == u)
    && (s.destroyed ==> s.open == {})
  }

  function Sum(credits: seq<nat>): nat {
    if credits == [] then 0 else credits[0] + Sum(credits[1..])
  }

  ghost predicate Window(c: Setup, s: State) {
    && (forall a :: 0 <= a < |s.credits| ==> s.credits[a] <= c.parts)
    && c.maxOpenAcks >= 1
    && |s.open| + Sum(s.credits) <= c.maxOpenAcks - 1 + |s.credits| * c.parts
  }

  /** What is assumed of the surroundings: a client acknowledges only what it has been sent, a PDU enters
      unstamped, and no sending thread holds on to a PDU for longer than the cleanup delay when its ESME
      is destroyed. */
  ghost predicate Orderly(s: State, e: Event) {
    match e
    case Ack(q) => !Unsent(s, Deliver(q))
    case Admit(_, stamp) => stamp == 0
    case Destroy => forall t :: t in s.hand ==> s.now - s.hand[t].since <= 10
    case _ => true
  }

  ghost predicate OrderlyRun(c: Setup, s: State, events: seq<Event>, t: State)
    decreases |events|
  {
    if events == [] then s == t
    else Enabled(c, s, events[0]) && Orderly(s, events[0]) && OrderlyRun(c, Apply(c, s, events[0]), events[1..], t)
  }

  ghost predicate Sound(s: State) {
    Ledger(s) && Freeing(s) && Custody(s) && s.lastProcess <= s.now && s.now > 0
  }

  lemma AdmitKeeps(c: Setup, s: State, a: nat)
    requires Sound(s) && Enabled(c, s, Admit(a, 0))
    ensures Sound(Apply(c, s, Admit(a, 0)))
  {
    var t := Apply(c, s, Admit(a, 0));
    assert s.nextSeq !in s.timeSent;
    assert !Unsent(s, Deliver(s.nextSeq));
    forall p ensures Unsent(t, p) <==> Unsent(s, p) || p == Deliver(s.nextSeq) {}
    AdmitKeepsCustody(c, s, a);
  }

  lemma AdmitKeepsCustody(c: Setup, s: State, a: nat)
    requires Ledger(s) && Custody(s) && Enabled(c, s, Admit(a, 0))
    requires var t := Apply(c, s, Admit(a, 0)); forall p :: Unsent(t, p) <==> Unsent(s, p) || p == Deliver(s.nextSeq)
    ensures Custody(Apply(c, s, Admit(a, 0)))
  {
    var t := Apply(c, s, Admit(a, 0));
    forall h | h in t.hand ensures t.hand[h].pdu !in t.queue {
      assert Unsent(s, s.hand[h].pdu);
    }
  }

  lemma ReplyKeeps(c: Setup, s: State, usesSequence: bool)
    requires Sound(s) && Enabled(c, s, Reply(usesSequence))
    ensures Sound(Apply(c, s, Reply(usesSequence)))
  {
    var t := Apply(c, s, Reply(usesSequence));
    assert !Unsent(s, Plain(s.nextUid));
    forall p ensures Unsent(t, p) <==> Unsent(s, p) || p == Plain(s.nextUid) {}
  }

  lemma DequeueKeeps(c: Setup, s: State, t: nat, p: Pdu)
    requires Sound(s) && Enabled(c, s, Dequeue(t, p))
    ensures Sound(Apply(c, s, Dequeue(t, p)))
  {
    var n := Apply(c, s, Dequeue(t, p));
    assert Unsent(s, p);
    DequeueMoves(s, n, t, p);
    DequeueKeepsCustody(s, n, t, p);
  }

  lemma DequeueMoves(s: State, n: State, t: nat, p: Pdu)
    requires p in s.queue && t !in s.hand && n.queue == s.queue - {p} && n.hand == s.hand[t := Held(p, s.now)]
    ensures forall r :: Unsent(n, r) <==> Unsent(s, r)
  {
    forall r ensures Unsent(n, r) <==> Unsent(s, r) {
      if Unsent(s, r) && r !in s.queue {
        var u :| u in s.hand && s.hand[u].pdu == r;
        assert n.hand[u].pdu == r;
      }
      if r == p { assert n.hand[t].pdu == r; }
    }
  }

  lemma DequeueKeepsCustody(s: State, n: State, t: nat, p: Pdu)
    requires Custody(s) && s.lastProcess <= s.now && p in s.queue && t !in s.hand
    requires forall r :: Unsent(n, r) <==> Unsent(s, r)
    requires n == s.(queue := s.queue - {p}, hand := s.hand[t := Held(p, s.now)], lastProcess := s.now)
    ensures Custody(n)
  {
    assert forall u :: u in s.hand ==> n.hand[u] == s.hand[u] && s.hand[u].pdu != p;
  }

  lemma SendRemoves(c: Setup, s: State, t: nat)
    requires Custody(s) && Enabled(c, s, Send(t))
    ensures var n := Apply(c, s, Send(t)); forall r :: Unsent(n, r) <==> Unsent(s, r) && r != s.hand[t].pdu
  {
    var n := Apply(c, s, Send(t));
    assert n.queue == s.queue && n.hand == s.hand - {t};
    forall r ensures Unsent(n, r) <==> Unsent(s, r) && r != s.hand[t].pdu {
      if Unsent(s, r) && r != s.hand[t].pdu && r !in s.queue {
        var u :| u in s.hand && s.hand[u].pdu == r;
        assert n.hand[u].pdu == r;
      }
    }
  }

  lemma SendKeeps(c: Setup, s: State, t: nat)
    requires Sound(s) && Enabled(c, s, Send(t))
    ensures Sound(Apply(c, s, Send(t)))
  {
    var n := Apply(c, s, Send(t));
    assert Unsent(s, s.hand[t].pdu);
    SendRemoves(c, s, t);
    SendKeepsFreeing(c, s, t);
    SendKeepsCustody(c, s, t);
    assert n.timeSent.Keys == s.timeSent.Keys && n.open == s.open && n.called == s.called;
  }

  lemma SendKeepsFreeing(c: Setup, s: State, t: nat)
    requires Freeing(s) && Custody(s) && Enabled(c, s, Send(t)) && Unsent(s, s.hand[t].pdu)
    requires var n := Apply(c, s, Send(t)); forall r :: Unsent(n, r) <==> Unsent(s, r) && r != s.hand[t].pdu
    ensures Freeing(Apply(c, s, Send(t)))
  {
    var n := Apply(c, s, Send(t));
    assert n.called == s.called && n.nextUid == s.nextUid;
    if s.hand[t].pdu.Deliver? {
      assert n.freed == s.freed;
    }
  }

  lemma SendKeepsCustody(c: Setup, s: State, t: nat)
    requires Custody(s) && Enabled(c, s, Send(t)) && Unsent(s, s.hand[t].pdu)
    requires var n := Apply(c, s, Send(t)); forall r :: Unsent(n, r) <==> Unsent(s, r) && r != s.hand[t].pdu
    ensures Custody(Apply(c, s, Send(t)))
  {
    var n := Apply(c, s, Send(t));
    assert n.open == s.open && n.hand == s.hand - {t} && n.queue == s.queue && n.nextUid == s.nextUid;
    assert forall q :: Deliver(q) != s.hand[t].pdu ==> (q in n.timeSent <==> q in s.timeSent);
    assert forall q :: Deliver(q) != s.hand[t].pdu && q in s.timeSent ==> n.timeSent[q] == s.timeSent[q];
  }

  lemma CallKeeps(s: State, q: int)
    requires Sound(s) && q in s.open && !Unsent(s, Deliver(q))
    ensures Sound(Call(s, q))
  {
    var n := Call(s, q);
    forall p ensures Unsent(n, p) <==> Unsent(s, p) {}
  }

  /** The guard of a destruction leaves nothing unsent behind when the sending threads are prompt. */
  lemma DestroyKeeps(c: Setup, s: State)
    requires Sound(s) && Enabled(c, s, Destroy) && Orderly(s, Destroy)
    ensures Sound(Apply(c, s, Destroy))
    ensures forall p :: !Unsent(s, p)
  {
    var n := Apply(c, s, Destroy);
    forall p ensures !Unsent(s, p) && !Unsent(n, p) {}
    DestroyKeepsBooks(c, s);
  }

  lemma DestroyKeepsBooks(c: Setup, s: State)
    requires Sound(s) && Enabled(c, s, Destroy)
    ensures Ledger(Apply(c, s, Destroy)) && Freeing(Apply(c, s, Destroy))
  {
    var n := Apply(c, s, Destroy);
    SameUnsent(s, n);
    forall q ensures n.freed[Deliver(q)] == n.called[q] {
      DeliversCount(s.open, Deliver(q));
    }
    forall u: nat ensures n.freed[Plain(u)] == s.freed[Plain(u)] {
      DeliversCount(s.open, Plain(u));
    }
  }

  lemma DeliversCount(open: set<int>, p: Pdu)
    ensures Delivers(open)[p] == if p.Deliver? && p.seqNo in open then 1 else 0
  {
  }

  lemma StepKeepsSound(c: Setup, s: State, e: Event)
    requires Sound(s) && Enabled(c, s, e) && Orderly(s, e)
    ensures Sound(Apply(c, s, e))
  {
    match e
    case Admit(a, _) => AdmitKeeps(c, s, a);
    case Reply(usesSequence) => ReplyKeeps(c, s, usesSequence);
    case Dequeue(t, p) => DequeueKeeps(c, s, t, p);
    case Send(t) => SendKeeps(c, s, t);
    case Ack(q) => AckKeeps(c, s, q);
    case Expire(q) => CallKeeps(s, q);
    case Destroy => DestroyKeeps(c, s);
    case Pick(_) => SameUnsent(s, Apply(c, s, e));
    case Quit(_) => SameUnsent(s, Apply(c, s, e));
    case Tick(_) => SameUnsent(s, Apply(c, s, e));
    case Disconnect => SameUnsent(s, Apply(c, s, e));
  }

  lemma SameUnsent(s: State, t: State)
    requires s.queue == t.queue && s.hand == t.hand
    ensures forall p :: Unsent(s, p) <==> Unsent(t, p)
  {
  }

  lemma AckKeeps(c: Setup, s: State, q: int)
    requires Sound(s) && Enabled(c, s, Ack(q)) && Orderly(s, Ack(q))
    ensures Sound(Apply(c, s, Ack(q)))
  {
    var seen := s.(lastProcess := s.now);
    SameUnsent(s, seen);
    if q in s.open {
      CallKeeps(seen, q);
    }
  }

  lemma {:induction false} RunKeepsSound(c: Setup, s: State, events: seq<Event>, t: State)
    requires Sound(s) && OrderlyRun(c, s, events, t)
    ensures Sound(t)
    decreases |events|
  {
    if events != [] {
      StepKeepsSound(c, s, events[0]);
      RunKeepsSound(c, Apply(c, s, events[0]), events[1..], t);
    }
  }

  /** In every orderly run a callback runs at most once, and exactly once as soon as its PDU has left the
      window; no PDU is freed twice, and none that is still to be sent. */
  lemma CallbacksRunOnce(c: Setup, s: State, events: seq<Event>, t: State)
    requires Initial(c, s) && OrderlyRun(c, s, events, t)
    ensures forall q :: t.called[q] == if q in t.timeSent && q !in t.open then 1 else 0
    ensures forall p :: t.freed[p] <= 1 && (Unsent(t, p) ==> t.freed[p] == 0)
    ensures t.destroyed ==> forall q :: q in t.timeSent ==> t.called[q] == 1
  {
    assert forall p :: !Unsent(s, p);
    RunKeepsSound(c, s, events, t);
    forall p ensures t.freed[p] <= 1 && (Unsent(t, p) ==> t.freed[p] == 0) {
      match p case Deliver(q) => assert t.freed[Deliver(q)] == t.called[q]; case Plain(u) => assert t.freed[Plain(u)] <= 1;
    }
  }

  /** dict_put never replaces a waiting PDU: the sequence number is new. */
  lemma SequenceNumberIsFree(c: Setup, s: State, events: seq<Event>, t: State)
    requires Initial(c, s) && OrderlyRun(c, s, events, t)
    ensures t.nextSeq !in t.open && t.nextSeq !in t.called && !Unsent(t, Deliver(t.nextSeq))
  {
    assert forall p :: !Unsent(s, p);
    RunKeepsSound(c, s, events, t);
  }

  // ------------------------------------------------------------------ what the assumptions are for

  /** Some PDU has been freed while it is in the queue or in a sending thread's hand. */
  ghost predicate FreesUnsent(s: State) {
    exists p :: Unsent(s, p) && s.freed[p] > 0
  }

  lemma SoundFreesNoUnsent(s: State)
    requires Sound(s)
    ensures !FreesUnsent(s)
  {
    forall p | Unsent(s, p) ensures s.freed[p] == 0 {
      match p case Deliver(q) => assert s.freed[Deliver(q)] == s.called[q]; case Plain(u) =>
    }
  }

  /** An acknowledgement frees a PDU that is still to be sent exactly when its number was never sent. */
  lemma AckIsSafeIff(c: Setup, s: State, q: int)
    requires Sound(s) && Enabled(c, s, Ack(q))
    ensures FreesUnsent(Apply(c, s, Ack(q))) <==> Unsent(s, Deliver(q))
    ensures Sound(Apply(c, s, Ack(q))) <==> !Unsent(s, Deliver(q))
  {
    var t := Apply(c, s, Ack(q));
    if Unsent(s, Deliver(q)) {
      assert q in s.open && q !in t.open;
      SameUnsent(s, t);
      assert Unsent(t, Deliver(q)) && t.freed[Deliver(q)] > 0;
    } else {
      AckKeeps(c, s, q);
      SoundFreesNoUnsent(t);
    }
  }

  ghost predicate ExpiresAfter(c: Setup, s: State, q: int, d: nat) {
    Enabled(c, Apply(c, s, Tick(d)), Expire(q))
  }

  /** A queued PDU can time out, given time, exactly when it came in stamped. The loader of PDUs kept in
      Redis copies the stored stamp. */
  lemma QueuedPduExpiresIff(c: Setup, s: State, q: int)
    requires s.connected && Deliver(q) in s.queue && q in s.open && q in s.timeSent
    ensures (exists d: nat :: ExpiresAfter(c, s, q, d)) <==> s.timeSent[q] > 0
  {
    if s.timeSent[q] > 0 {
      var enough := s.timeSent[q] + c.waitAckTime + 1 - s.now;
      var d: nat := if enough > 0 then enough else 0;
      assert ExpiresAfter(c, s, q, d);
    }
  }

  lemma StampedPduIsFreedInQueue(c: Setup, s: State, a: nat, stamp: int)
    requires Sound(s) && s.connected && Enabled(c, s, Admit(a, stamp))
    requires stamp > 0 && s.now - stamp > c.waitAckTime
    ensures var q := s.nextSeq;
            var s1 := Apply(c, s, Admit(a, stamp));
            Enabled(c, s1, Expire(q)) &&
            var s2 := Apply(c, s1, Expire(q));
            Deliver(q) in s2.queue && s2.freed[Deliver(q)] == 1
  {
    assert s.freed[Deliver(s.nextSeq)] == s.called[s.nextSeq] == 0;
  }

  /** Destroying an ESME is safe exactly when no deliver_sm of its is in a sending thread's hand. */
  lemma DestroyIsSafeIff(c: Setup, s: State)
    requires Sound(s) && Enabled(c, s, Destroy)
    ensures FreesUnsent(Apply(c, s, Destroy)) <==> exists t :: t in s.hand && s.hand[t].pdu.Deliver?
    ensures Sound(Apply(c, s, Destroy)) <==> forall t :: t in s.hand ==> s.hand[t].pdu.Plain?
  {
    if t :| t in s.hand && s.hand[t].pdu.Deliver? {
      DestroyFreesHeld(c, s, t);
    } else {
      DestroyKeepsRest(c, s);
      SoundFreesNoUnsent(Apply(c, s, Destroy));
    }
  }

  lemma DestroyFreesHeld(c: Setup, s: State, t: nat)
    requires Sound(s) && Enabled(c, s, Destroy) && t in s.hand && s.hand[t].pdu.Deliver?
    ensures FreesUnsent(Apply(c, s, Destroy)) && !Sound(Apply(c, s, Destroy))
  {
    var n, p := Apply(c, s, Destroy), s.hand[t].pdu;
    assert Unsent(s, p) && p.seqNo in s.open;
    DeliversCount(s.open, p);
    assert Unsent(n, p) && n.freed[p] > 0;
    assert !Custody(n);
  }

  lemma DestroyKeepsRest(c: Setup, s: State)
    requires Sound(s) && Enabled(c, s, Destroy) && forall t :: t in s.hand ==> s.hand[t].pdu.Plain?
    ensures Sound(Apply(c, s, Destroy))
  {
    var n := Apply(c, s, Destroy);
    SameUnsent(s, n);
    DestroyKeepsBooks(c, s);
    assert Custody(n);
  }

  // ------------------------------------------------------------------ the bound on the window

  lemma {:induction false} SumUpdate(credits: seq<nat>, a: nat, x: nat)
    requires a < |credits|
    ensures Sum(credits[a := x]) == Sum(credits) - credits[a] + x
  {
    if a > 0 {
      SumUpdate(credits[1..], a - 1, x);
      assert credits[a := x][1..] == credits[1..][a - 1 := x];
    } else {
      assert credits[a := x][1..] == credits[1..];
    }
  }

  lemma {:induction false} SumAtMost(credits: seq<nat>, parts: nat)
    requires forall a :: 0 <= a < |credits| ==> credits[a] <= parts
    ensures Sum(credits) <= |credits| * parts
  {
    if credits != [] {
      SumAtMost(credits[1..], parts);
      assert |credits| * parts == parts + (|credits| - 1) * parts;
    }
  }

  lemma StepKeepsWindow(c: Setup, s: State, e: Event)
    requires Window(c, s) && Enabled(c, s, e)
    ensures Window(c, Apply(c, s, e)) && |Apply(c, s, e).credits| == |s.credits|
  {
    match e
    case Pick(a) => SumAtMost(Apply(c, s, e).credits, c.parts);
    case Quit(a) => SumUpdate(s.credits, a, 0);
    case Admit(a, _) => SumUpdate(s.credits, a, s.credits[a] - 1);
    case _ => OtherStepsKeepWindow(c, s, e);
  }

  lemma OtherStepsKeepWindow(c: Setup, s: State, e: Event)
    requires Window(c, s) && Enabled(c, s, e) && !e.Pick? && !e.Quit? && !e.Admit?
    ensures Window(c, Apply(c, s, e)) && Apply(c, s, e).credits == s.credits
  {
    var t := Apply(c, s, e);
    assert t.credits == s.credits && t.open <= s.open;
    SubsetSize(t.open, s.open);
  }

  lemma SubsetSize(a: set<int>, b: set<int>)
    requires a <= b
    ensures |a| <= |b|
  {
    if a != b { assert a + (b - a) == b; assert |a + (b - a)| == |a| + |b - a|; }
  }

  lemma {:induction false} RunKeepsWindow(c: Setup, s: State, events: seq<Event>, t: State)
    requires Window(c, s) && Run(c, s, events, t)
    ensures Window(c, t) && |t.credits| == |s.credits|
    decreases |events|
  {
    if events != [] {
      StepKeepsWindow(c, s, events[0]);
      RunKeepsWindow(c, Apply(c, s, events[0]), events[1..], t);
    }
  }

  /** With k admitters, each adding up to `parts` PDUs for one pick, no run overfills the window by more
      than k * parts - 1. */
  lemma WindowNeverOverflows(c: Setup, s: State, events: seq<Event>, t: State)
    requires Initial(c, s) && Run(c, s, events, t)
    ensures |t.open| <= c.maxOpenAcks - 1 + |s.credits| * c.parts
  {
    InitialWindow(c, s);
    RunKeepsWindow(c, s, events, t);
  }

  lemma InitialWindow(c: Setup, s: State)
    requires Initial(c, s)
    ensures Window(c, s)
  {
    SumAtMost(s.credits, 0);
    assert |s.credits| * 0 == 0 <= |s.credits| * c.parts;
  }

  // ------------------------------------------------------------------ the bound is reached

  lemma {:induction false} RunConcat(c: Setup, s: State, first: seq<Event>, mid: State, rest: seq<Event>, t: State)
    requires Run(c, s, first, mid) && Run(c, mid, rest, t)
    ensures Run(c, s, first + rest, t)
    decreases |first|
  {
    if first == [] {
      assert first + rest == rest;
    } else {
      RunConcat(c, Apply(c, s, first[0]), first[1..], mid, rest, t);
      assert (first + rest)[1..] == first[1..] + rest;
    }
  }

  lemma RunCons(c: Setup, s: State, e: Event, rest: seq<Event>, t: State)
    requires Enabled(c, s, e) && Run(c, Apply(c, s, e), rest, t)
    ensures Run(c, s, [e] + rest, t)
  {
    assert ([e] + rest)[1..] == rest;
  }

  /** Nothing has been sent or answered, and the next sequence number is new. */
  ghost predicate Filling(s: State) {
    && s.connected && !s.destroyed && |s.queue| == |s.open|
    && (forall q :: q in s.open || Deliver(q) in s.queue ==> q < s.nextSeq)
  }

  lemma AdmitFills(c: Setup, s: State, a: nat)
    requires Filling(s) && Enabled(c, s, Admit(a, 0))
    ensures var t := Apply(c, s, Admit(a, 0));
            Filling(t) && |t.open| == |s.open| + 1 && Sum(t.credits) == Sum(s.credits) - 1
  {
    SumUpdate(s.credits, a, s.credits[a] - 1);
  }

  /** Spending every credit. */
  lemma {:induction false} SpendAll(c: Setup, s: State) returns (events: seq<Event>, t: State)
    requires Filling(s)
    ensures Run(c, s, events, t) && |t.open| == |s.open| + Sum(s.credits)
    decreases Sum(s.credits)
  {
    if a: nat :| a < |s.credits| && s.credits[a] > 0 {
      AdmitFills(c, s, a);
      events, t := SpendAll(c, Apply(c, s, Admit(a, 0)));
      RunCons(c, s, Admit(a, 0), events, t);
      events := [Admit(a, 0)] + events;
    } else {
      SumAtMost(s.credits, 0);
      assert |s.credits| * 0 == 0;
      events, t := [], s;
    }
  }

  /** Every admitter from `i` on picks while there is room. */
  lemma {:induction false} PickAll(c: Setup, s: State, i: nat) returns (events: seq<Event>, t: State)
    requires Filling(s) && HasRoom(c, s) && i <= |s.credits|
    requires forall a :: i <= a < |s.credits| ==> s.credits[a] == 0
    ensures Run(c, s, events, t) && Filling(t) && t.open == s.open
    ensures Sum(t.credits) == Sum(s.credits) + (|s.credits| - i) * c.parts
    decreases |s.credits| - i
  {
    if i == |s.credits| {
      events, t := [], s;
    } else {
      var picked := Apply(c, s, Pick(i));
      SumUpdate(s.credits, i, c.parts);
      events, t := PickAll(c, picked, i + 1);
      RunCons(c, s, Pick(i), events, t);
      events := [Pick(i)] + events;
      assert (|s.credits| - i) * c.parts == (|s.credits| - (i + 1)) * c.parts + c.parts;
    }
  }

  /** One admitter adds `n` PDUs, one for each pick. */
  lemma {:induction false} FillBy(c: Setup, s: State, n: nat) returns (events: seq<Event>, t: State)
    requires Filling(s) && c.parts > 0 && |s.credits| > 0 && |s.open| + n < c.maxOpenAcks
    requires forall a :: 0 <= a < |s.credits| ==> s.credits[a] == 0
    ensures Run(c, s, events, t) && Filling(t) && |t.open| == |s.open| + n && t.credits == s.credits
    decreases n
  {
    if n == 0 {
      events, t := [], s;
    } else {
      var s1 := Apply(c, s, Pick(0));
      AdmitFills(c, s1, 0);
      var s2 := Apply(c, s1, Admit(0, 0));
      var s3 := Apply(c, s2, Quit(0));
      assert s3.credits == s.credits;
      events, t := FillBy(c, s3, n - 1);
      RunCons(c, s2, Quit(0), events, t);
      RunCons(c, s1, Admit(0, 0), [Quit(0)] + events, t);
      RunCons(c, s, Pick(0), [Admit(0, 0)] + ([Quit(0)] + events), t);
      events := [Pick(0)] + ([Admit(0, 0)] + ([Quit(0)] + events));
    }
  }

  /** The bound is the best there is: some run reaches it. */
  lemma WindowBoundIsReached(c: Setup, s: State) returns (events: seq<Event>, t: State)
    requires Initial(c, s) && c.parts > 0 && |s.credits| > 0
    ensures Run(c, s, events, t) && |t.open| == c.maxOpenAcks - 1 + |s.credits| * c.parts
  {
    var filled, full, picks, picked, admits;
    SumAtMost(s.credits, 0);
    assert |s.credits| * 0 == 0;
    filled, full := FillBy(c, s, c.maxOpenAcks - 1);
    picks, picked := PickAll(c, full, 0);
    admits, t := SpendAll(c, picked);
    RunConcat(c, s, filled, full, picks, picked);
    RunConcat(c, s, filled + picks, picked, admits, t);
    events := filled + picks + admits;
  }
}
