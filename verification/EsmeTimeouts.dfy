/** When a deliver_sm times out: the wait for its response begins with the write, and only with it. */
module EsmeTimeouts {
  import opened Common
  import opened EsmeWindow

  /** The step writes this deliver_sm to a connected client. */
  ghost predicate Writes(s: State, e: Event, q: int) {
    e.Send? && e.sender in s.hand && s.connected && s.hand[e.sender].pdu == Deliver(q)
  }

  /** Some step of the run wrote it, at time `at`. */
  ghost predicate WrittenAt(c: Setup, s: State, events: seq<Event>, q: int, at: int)
    decreases |events|
  {
    && events != [] && Enabled(c, s, events[0])
    && ((Writes(s, events[0], q) && s.now == at) || WrittenAt(c, Apply(c, s, events[0]), events[1..], q, at))
  }

  /** One write and the clock: a response is overdue exactly when more than the allowed time has passed since the
      write; a client that was no longer connected when its turn came starts no wait. */
  lemma SentPduExpiresIff(c: Setup, s: State, t: nat, q: int, d: nat)
    requires Enabled(c, s, Send(t)) && s.hand[t].pdu == Deliver(q) && q in s.open && s.now > 0
    ensures s.connected ==>
              (Enabled(c, Apply(c, Apply(c, s, Send(t)), Tick(d)), Expire(q)) <==> d > c.waitAckTime)
    ensures !s.connected ==> Apply(c, s, Send(t)).timeSent == s.timeSent
  {
    var w := Apply(c, s, Send(t));
    if s.connected {
      assert q in w.timeSent && w.timeSent[q] == s.now && w.open == s.open && w.connected && w.now == s.now;
    }
  }

  // ------------------------------------------------------------------ over whole runs

  predicate Stamped(s: State, q: int, at: int) {
    q in s.timeSent && s.timeSent[q] == at
  }

  /** No longer waiting to be sent, and its number has been used. */
  ghost predicate Past(s: State, q: int) {
    q < s.nextSeq && Deliver(q) !in s.queue && forall t :: t in s.hand ==> s.hand[t].pdu != Deliver(q)
  }

  lemma DequeueKeepsPast(c: Setup, s: State, h: nat, p: Pdu, q: int)
    requires Enabled(c, s, Dequeue(h, p)) && Past(s, q)
    ensures Past(Apply(c, s, Dequeue(h, p)), q)
  {
    assert Apply(c, s, Dequeue(h, p)).hand == s.hand[h := Held(p, s.now)] && p != Deliver(q);
  }

  lemma SendKeepsPast(c: Setup, s: State, h: nat, q: int)
    requires Enabled(c, s, Send(h)) && Past(s, q)
    ensures Past(Apply(c, s, Send(h)), q)
  {
    var t := Apply(c, s, Send(h));
    assert t.hand == s.hand - {h} && t.queue == s.queue && t.nextSeq == s.nextSeq;
  }

  lemma PastStays(c: Setup, s: State, e: Event, q: int)
    requires Enabled(c, s, e) && Past(s, q)
    ensures Past(Apply(c, s, e), q) && !Writes(s, e, q)
  {
    var t := Apply(c, s, e);
    match e
    case Dequeue(h, p) => DequeueKeepsPast(c, s, h, p, q);
    case Send(h) => SendKeepsPast(c, s, h, q);
    case Admit(_, _) => assert t.hand == s.hand;
    case Reply(_) => assert t.hand == s.hand;
    case _ => assert t.hand == s.hand && t.queue == s.queue && t.nextSeq == s.nextSeq;
  }

  lemma {:induction false} PastKeepsItsStamp(c: Setup, s: State, events: seq<Event>, t: State, q: int, at: int)
    requires Sound(s) && OrderlyRun(c, s, events, t) && Past(s, q) && at > 0
    ensures Stamped(t, q, at) <==> Stamped(s, q, at)
    ensures !WrittenAt(c, s, events, q, at)
    decreases |events|
  {
    if events != [] {
      PastStays(c, s, events[0], q);
      OnlyWritesStamp(c, s, events[0], q, at);
      StepKeepsSound(c, s, events[0]);
      PastKeepsItsStamp(c, Apply(c, s, events[0]), events[1..], t, q, at);
    }
  }

  /** A step that does not write the PDU gives it no stamp, and leaves one that it has. */
  lemma OnlyWritesStamp(c: Setup, s: State, e: Event, q: int, at: int)
    requires Sound(s) && Enabled(c, s, e) && Orderly(s, e) && !Writes(s, e, q) && at > 0
    ensures Stamped(Apply(c, s, e), q, at) <==> Stamped(s, q, at)
  {
    match e
    case Admit(_, _) => assert s.nextSeq !in s.timeSent;
    case Send(t) =>
    case _ =>
  }

  lemma WriteStamps(c: Setup, s: State, e: Event, q: int)
    requires Sound(s) && Enabled(c, s, e) && Writes(s, e, q)
    ensures Stamped(Apply(c, s, e), q, s.now) && Past(Apply(c, s, e), q) && s.now > 0
    ensures forall at :: at > 0 ==> !Stamped(s, q, at)
  {
    assert Unsent(s, Deliver(q));
    SendRemoves(c, s, e.sender);
  }

  /** The stamps that a run leaves are the ones it found and the times of its writes. */
  lemma {:induction false} StampIsWrite(c: Setup, s: State, events: seq<Event>, t: State, q: int, at: int)
    requires Sound(s) && OrderlyRun(c, s, events, t) && at > 0
    ensures Stamped(t, q, at) <==> Stamped(s, q, at) || WrittenAt(c, s, events, q, at)
    decreases |events|
  {
    if events != [] {
      var next, rest := Apply(c, s, events[0]), events[1..];
      StepKeepsSound(c, s, events[0]);
      if Writes(s, events[0], q) {
        WriteStamps(c, s, events[0], q);
        PastKeepsItsStamp(c, next, rest, t, q, at);
      } else {
        OnlyWritesStamp(c, s, events[0], q, at);
        StampIsWrite(c, next, rest, t, q, at);
      }
    }
  }

  lemma {:induction false} WrittenLater(c: Setup, s: State, events: seq<Event>, t: State, q: int, at: int)
    requires Sound(s) && OrderlyRun(c, s, events, t) && WrittenAt(c, s, events, q, at)
    ensures at > 0
    decreases |events|
  {
    if !(Writes(s, events[0], q) && s.now == at) {
      StepKeepsSound(c, s, events[0]);
      WrittenLater(c, Apply(c, s, events[0]), events[1..], t, q, at);
    }
  }

  /** In every orderly run, a deliver_sm in the window of a connected client can time out after `d` more seconds
      exactly when it has been written and that is longer ago than the time allowed; one never written cannot,
      and none is written twice. */
  lemma WrittenPduExpiresIff(c: Setup, s: State, events: seq<Event>, t: State, q: int, d: nat)
    requires Initial(c, s) && OrderlyRun(c, s, events, t) && q in t.open && t.connected
    ensures Enabled(c, Apply(c, t, Tick(d)), Expire(q)) <==>
            exists at :: WrittenAt(c, s, events, q, at) && t.now + d - at > c.waitAckTime
    ensures forall at, again :: WrittenAt(c, s, events, q, at) && WrittenAt(c, s, events, q, again) ==> at == again
  {
    assert forall p :: !Unsent(s, p);
    forall at | WrittenAt(c, s, events, q, at) ensures Stamped(t, q, at) && at > 0 {
      WrittenLater(c, s, events, t, q, at);
      StampIsWrite(c, s, events, t, q, at);
    }
    if q in t.timeSent && t.timeSent[q] > 0 {
      StampIsWrite(c, s, events, t, q, t.timeSent[q]);
    }
  }
}
