/** The code that performs the steps of EsmeWindow on one ESME, and the choice of a receiver among the
    binds of an account. */
module EsmeOutbound {
  import opened Common
  import opened EsmeWindow

  // ------------------------------------------------------------------ choosing a receiver

  /** What find_best_receiver reads of one bind. */
  datatype Bind = Bind(receives: bool, connected: bool, queued: nat, open: nat, maxOpenAcks: int)

  predicate Usable(b: Bind) {
    b.connected && b.receives && b.queued < b.maxOpenAcks && b.open < b.maxOpenAcks
  }

  /** The comparison that replaces the choice so far. */
  predicate Replaces(b: Bind, best: Bind) {
    b.open < best.open || b.queued < best.queued
  }

  predicate NoBusier(b: Bind, c: Bind) {
    b.open <= c.open && b.queued <= c.queued
  }

  /** Of any two usable binds one is no busier than the other, in both counts. */
  predicate Comparable(binds: seq<Bind>) {
    forall i, j :: 0 <= i < |binds| && 0 <= j < |binds| && Usable(binds[i]) && Usable(binds[j]) ==>
      NoBusier(binds[i], binds[j]) || NoBusier(binds[j], binds[i])
  }

  /** The binds with room, in order. */
  method UsableBinds(binds: seq<Bind>) returns (options: seq<nat>)
    ensures forall k :: 0 <= k < |options| ==> options[k] < |binds| && Usable(binds[options[k]])
    ensures forall k, l :: 0 <= k < l < |options| ==> options[k] < options[l]
    ensures forall j :: 0 <= j < |binds| && Usable(binds[j]) ==> j in options
  {
    options := [];
    var i := 0;
    while i < |binds|
      invariant 0 <= i <= |binds|
      invariant forall k :: 0 <= k < |options| ==> options[k] < i && Usable(binds[options[k]])
      invariant forall k, l :: 0 <= k < l < |options| ==> options[k] < options[l]
      invariant forall j :: 0 <= j < i && Usable(binds[j]) ==> j in options
    {
      if binds[i].connected && binds[i].receives {
        if binds[i].maxOpenAcks - binds[i].queued > 0 {
          if binds[i].maxOpenAcks - binds[i].open > 0 {
            options := options + [i];
          }
        }
      }
      i := i + 1;
    }
  }

  /** Some bind is chosen exactly when one is usable, and what is chosen was usable and is not beaten by
      any usable bind listed after it. Where the two counts never disagree, no usable bind is less busy. */
  method FindBestReceiver(systemId: string, binds: seq<Bind>) returns (best: Option<nat>)
    ensures best.Some? ==> systemId != "" && best.value < |binds| && Usable(binds[best.value])
    ensures best.Some? ==> var b := binds[best.value];
                           b.receives && b.connected && b.queued < b.maxOpenAcks && b.open < b.maxOpenAcks
    ensures best.Some? ==> forall j :: best.value < j < |binds| && Usable(binds[j]) ==>
                             binds[best.value].open <= binds[j].open && binds[best.value].queued <= binds[j].queued
    ensures best.Some? && Comparable(binds) ==> forall j :: 0 <= j < |binds| && Usable(binds[j]) ==> NoBusier(binds[best.value], binds[j])
    ensures best.None? <==> systemId == "" || forall j :: 0 <= j < |binds| ==>
              var b := binds[j]; !b.receives || !b.connected || b.queued >= b.maxOpenAcks || b.open >= b.maxOpenAcks
  {
    best := None;
    if systemId == "" {
      return;
    }
    var options := UsableBinds(binds);
    var i := 0;
    while i < |options|
      invariant 0 <= i <= |options|
      invariant best.None? <==> i == 0
      invariant best.Some? ==> best.value < |binds| && exists k :: 0 <= k < i && options[k] == best.value
      invariant best.Some? ==>
        forall k :: 0 <= k < i && best.value < options[k] ==> !Replaces(binds[options[k]], binds[best.value])
      invariant best.Some? && Comparable(binds) ==> forall k :: 0 <= k < i ==> NoBusier(binds[best.value], binds[options[k]])
    {
      if best.None? {
        best := Some(options[i]);
      } else if binds[options[i]].open < binds[best.value].open {
        best := Some(options[i]);
      } else if binds[options[i]].queued < binds[best.value].queued {
        best := Some(options[i]);
      }
      i := i + 1;
    }
  }

  /** Where they do, a choice may be replaced by a busier one in two steps: each of these replaces the one before
      it, and the last has more in its queue and more open acknowledgements than the first. */
  lemma ReplacementIsNotAnOrder()
    ensures exists a: Bind, b: Bind, c: Bind ::
              Usable(a) && Usable(b) && Usable(c) && Replaces(b, a) && Replaces(c, b)
              && a.open < c.open && a.queued < c.queued
  {
    var a, b, c := Bind(true, true, 9, 1, 100), Bind(true, true, 1, 9, 100), Bind(true, true, 10, 2, 100);
    assert Usable(a) && Usable(b) && Usable(c) && Replaces(b, a) && Replaces(c, b);
  }

  // ------------------------------------------------------------------ one ESME

  lemma {:induction false} RunSnoc(c: Setup, s: State, first: seq<Event>, mid: State, e: Event)
    requires Run(c, s, first, mid) && Enabled(c, mid, e)
    ensures Run(c, s, first + [e], Apply(c, mid, e))
    decreases |first|
  {
    if first == [] {
      assert first + [e] == [e];
    } else {
      RunSnoc(c, Apply(c, s, first[0]), first[1..], mid, e);
      assert (first + [e])[1..] == first[1..] + [e];
    }
  }

  ghost predicate Distinct(order: seq<int>) {
    forall i, j :: 0 <= i < j < |order| ==> order[i] != order[j]
  }

  function Members(order: seq<int>): set<int> {
    set q | q in order
  }

  lemma TailMembers(order: seq<int>)
    requires Distinct(order) && order != []
    ensures Distinct(order[1..]) && order[0] in Members(order)
    ensures Members(order[1..]) == Members(order) - {order[0]}
  {
    assert order == [order[0]] + order[1..];
  }

  /** The overdue ones among `seqs`. */
  ghost function Overdue(c: Setup, s: State, seqs: seq<int>): set<int> {
    set q | q in seqs && Expired(c, s, q)
  }

  lemma OverdueTail(c: Setup, s: State, seqs: seq<int>)
    requires Distinct(seqs) && seqs != []
    ensures seqs[0] !in Overdue(c, s, seqs[1..])
    ensures Overdue(c, s, seqs) == Overdue(c, s, seqs[1..]) + (if Expired(c, s, seqs[0]) then {seqs[0]} else {})
  {
    assert seqs == [seqs[0]] + seqs[1..];
  }

  lemma WhatIsAdmitted(c: Setup, s: State, a: nat, stamp: int)
    requires Enabled(c, s, Admit(a, stamp))
    ensures Apply(c, s, Admit(a, stamp))
         == s.(credits := s.credits[a := s.credits[a] - 1], nextSeq := s.nextSeq + 1, open := s.open + {s.nextSeq},
               queue := s.queue + {Deliver(s.nextSeq)}, timeSent := s.timeSent[s.nextSeq := stamp])
  {
  }

  lemma WhatIsReplied(c: Setup, s: State, usesSequence: bool)
    requires !s.destroyed
    ensures Apply(c, s, Reply(usesSequence))
         == s.(nextUid := s.nextUid + 1, queue := s.queue + {Plain(s.nextUid)},
               nextSeq := if usesSequence then s.nextSeq + 1 else s.nextSeq)
  {
  }

  class Esme {
    const setup: Setup
    var connected: bool
    var now: int
    var timeLastQueueProcess: int
    var sequenceNumber: int
    var outboundQueued: nat
    var queue: set<Pdu>
    var hand: map<nat, Held>
    var openAcks: map<int, Pdu>
    var timeSent: map<int, int>
    var credits: seq<nat>
    var nextUid: nat  // stands for the address of the next PDU allocated
    ghost var destroyed: bool
    ghost var called: multiset<int>
    ghost var freed: multiset<Pdu>

    ghost function View(): State
      reads this
    {
      State(connected, destroyed, now, timeLastQueueProcess, sequenceNumber, nextUid, queue, hand, openAcks.Keys,
            timeSent, credits, called, freed)
    }

    /** The counter is the number of queued PDUs, and a key of the window is its PDU's number. */
    ghost predicate Valid()
      reads this
    {
      && outboundQueued == |queue|
      && (forall q :: q in openAcks ==> openAcks[q] == Deliver(q))
      && (forall q :: Deliver(q) in queue ==> q < sequenceNumber)
      && (forall u: nat :: Plain(u) in queue ==> u < nextUid)
    }

    constructor (setup: Setup, now: int, admitters: nat)
      requires setup.maxOpenAcks >= 1 && now > 0
      ensures Valid() && Initial(setup, View()) && this.setup == setup && |credits| == admitters
    {
      this.setup := setup;
      connected, this.now, timeLastQueueProcess := true, now, now;
      sequenceNumber, outboundQueued, queue, hand, openAcks, timeSent := 1, 0, {}, map[], map[], map[];
      credits := seq(admitters, i => 0);
      nextUid, destroyed, called, freed := 0, false, multiset{}, multiset{};
    }

    /** Some admitter has chosen this ESME. */
    method Picked(admitter: nat) returns (ok: bool)
      requires Valid() && admitter < |credits| && credits[admitter] == 0 && !destroyed
      modifies this
      ensures Valid() && (ok <==> HasRoom(setup, old(View())))
      ensures ok <==> connected && |queue| < setup.maxOpenAcks && |openAcks| < setup.maxOpenAcks
      ensures credits == if ok then old(credits)[admitter := setup.parts] else old(credits)
      ensures View() == if ok then Apply(setup, old(View()), Pick(admitter)) else old(View())
    {
      ok := connected && outboundQueued < setup.maxOpenAcks && |openAcks| < setup.maxOpenAcks;
      assert |openAcks| == |openAcks.Keys|;
      if ok {
        credits := credits[admitter := setup.parts];
      }
    }

    /** smpp_queues_add_outbound. A PDU with a callback is first put in the window, under a number not in it. */
    method AddOutbound(p: Pdu)
      requires outboundQueued == |queue| && p !in queue
      modifies this`openAcks, this`outboundQueued, this`queue
      ensures openAcks == if p.Deliver? then old(openAcks)[p.seqNo := p] else old(openAcks)
      ensures queue == old(queue) + {p} && outboundQueued == |queue|
    {
      if p.Deliver? {
        openAcks := openAcks[p.seqNo := p];
      }
      outboundQueued := outboundQueued + 1;
      queue := queue + {p};
    }

    /** An admitter's next PDU. */
    method AddDeliver(admitter: nat, stamp: int)
      requires Valid() && Enabled(setup, View(), Admit(admitter, stamp))
      modifies this
      ensures Valid() && View() == Apply(setup, old(View()), Admit(admitter, stamp))
      ensures sequenceNumber == old(sequenceNumber) + 1 && timeSent == old(timeSent)[old(sequenceNumber) := stamp]
      ensures openAcks.Keys == old(openAcks.Keys) + {old(sequenceNumber)}
      ensures queue == old(queue) + {Deliver(old(sequenceNumber))}
      ensures credits == old(credits)[admitter := old(credits)[admitter] - 1]
    {
      WhatIsAdmitted(setup, View(), admitter, stamp);
      credits := credits[admitter := credits[admitter] - 1];
      AddNumbered(stamp);
    }

    /** A PDU under the next sequence number. */
    method AddNumbered(stamp: int)
      requires Valid()
      modifies this`sequenceNumber, this`timeSent, this`openAcks, this`outboundQueued, this`queue
      ensures Valid() && sequenceNumber == old(sequenceNumber) + 1 && timeSent == old(timeSent)[old(sequenceNumber) := stamp]
      ensures openAcks.Keys == old(openAcks.Keys) + {old(sequenceNumber)}
      ensures queue == old(queue) + {Deliver(old(sequenceNumber))}
    {
      var q := sequenceNumber;
      sequenceNumber := sequenceNumber + 1;
      timeSent := timeSent[q := stamp];
      AddOutbound(Deliver(q));
    }

    /** A response, or an enquire_link with its own sequence number. */
    method AddPlain(usesSequence: bool)
      requires Valid() && !destroyed
      modifies this
      ensures Valid() && View() == Apply(setup, old(View()), Reply(usesSequence))
      ensures openAcks == old(openAcks) && queue == old(queue) + {Plain(old(nextUid))}
      ensures sequenceNumber == old(sequenceNumber) + if usesSequence then 1 else 0
    {
      WhatIsReplied(setup, View(), usesSequence);
      if usesSequence {
        sequenceNumber := sequenceNumber + 1;
      }
      AddNew();
    }

    /** A PDU without a callback, newly allocated. */
    method AddNew()
      requires Valid()
      modifies this`nextUid, this`openAcks, this`outboundQueued, this`queue
      ensures Valid() && nextUid == old(nextUid) + 1 && openAcks == old(openAcks)
      ensures queue == old(queue) + {Plain(old(nextUid))}
    {
      AddOutbound(Plain(nextUid));
      nextUid := nextUid + 1;
    }

    method Consume(sender: nat, p: Pdu)
      requires Valid() && p in queue && sender !in hand
      modifies this
      ensures Valid() && View() == Apply(setup, old(View()), Dequeue(sender, p))
      ensures queue == old(queue) - {p} && outboundQueued == old(outboundQueued) - 1
      ensures hand == old(hand)[sender := Held(p, now)] && timeLastQueueProcess == now
    {
      queue := queue - {p};
      hand := hand[sender := Held(p, now)];
      timeLastQueueProcess := now;
      outboundQueued := outboundQueued - 1;
    }

    /** The rest of the sending thread's round. */
    method SendHeld(sender: nat) returns (written: bool)
      requires Valid() && sender in hand
      modifies this
      ensures Valid() && View() == Apply(setup, old(View()), Send(sender))
      ensures written <==> old(connected)
      ensures var p := old(hand)[sender].pdu;
              && hand == old(hand) - {sender} && openAcks == old(openAcks)
              && timeSent == (if written && p.Deliver? then old(timeSent)[p.seqNo := now] else old(timeSent))
              && freed == (if p.Plain? then old(freed) + multiset{p} else old(freed))
    {
      var p := hand[sender].pdu;
      hand := hand - {sender};
      written := connected;
      if connected && p.Deliver? {
        timeSent := timeSent[p.seqNo := now];
      } else if p.Plain? {
        freed := freed + multiset{p};
      }
    }

    /** Takes a PDU out of the window and runs its callback, which frees it. */
    method RunCallback(q: int)
      requires Valid() && q in openAcks
      modifies this`openAcks, this`called, this`freed
      ensures Valid() && openAcks == old(openAcks) - {q}
      ensures called == old(called) + multiset{q} && freed == old(freed) + multiset{Deliver(q)}
    {
      openAcks := openAcks - {q};
      called := called + multiset{q};
      freed := freed + multiset{Deliver(q)};
    }

    /** smpp_queues_process_ack, with the note the inbound thread takes of the time. */
    method ProcessAck(q: int) returns (known: bool)
      requires Valid() && !destroyed
      modifies this
      ensures Valid() && View() == Apply(setup, old(View()), Ack(q))
      ensures known <==> q in old(openAcks)
      ensures openAcks == old(openAcks) - {q} && timeLastQueueProcess == now
      ensures called == if known then old(called) + multiset{q} else old(called)
    {
      timeLastQueueProcess := now;
      known := q in openAcks;
      if known {
        RunCallback(q);
      }
    }

    method ExpireOne(q: int, ghost before: State, ghost trace: seq<Event>) returns (expired: bool, ghost longer: seq<Event>)
      requires Valid() && connected && q in openAcks && Run(setup, before, trace, View())
      requires q in before.open && before.timeSent == timeSent && before.now == now
      modifies this`openAcks, this`called, this`freed
      ensures Valid() && Run(setup, before, longer, View())
      ensures expired <==> Expired(setup, before, q)
      ensures openAcks.Keys == old(openAcks.Keys) - (if expired then {q} else {})
      ensures called == old(called) + (if expired then multiset{q} else multiset{})
    {
      longer := trace;
      expired := q in timeSent && timeSent[q] > 0 && now - timeSent[q] > setup.waitAckTime;
      if expired {
        RunSnoc(setup, before, trace, View(), Expire(q));
        longer := trace + [Expire(q)];
        RunCallback(q);
      }
    }

    /** The first of the keys still to be looked at. */
    method ExpireHead(rest: seq<int>, ghost before: State, ghost trace: seq<Event>) returns (ghost longer: seq<Event>)
      requires Valid() && connected && rest != [] && Distinct(rest) && Run(setup, before, trace, View())
      requires Members(rest) <= openAcks.Keys <= before.open && before.timeSent == timeSent && before.now == now
      modifies this`openAcks, this`called, this`freed
      ensures Valid() && Run(setup, before, longer, View())
      ensures Distinct(rest[1..]) && Members(rest[1..]) <= openAcks.Keys <= before.open
      ensures openAcks.Keys - Overdue(setup, before, rest[1..]) == old(openAcks.Keys) - Overdue(setup, before, rest)
      ensures called + multiset(Overdue(setup, before, rest[1..])) == old(called) + multiset(Overdue(setup, before, rest))
    {
      TailMembers(rest);
      OverdueTail(setup, before, rest);
      var expired;
      expired, longer := ExpireOne(rest[0], before, trace);
    }

    /** The part of the cleanup pass that looks for overdue responses: the callbacks of the overdue PDUs
        run, and no other. `order` is the order in which dict_keys lists the window. */
    method ExpireAcks(order: seq<int>) returns (ghost trace: seq<Event>)
      requires Valid() && connected
      requires Distinct(order) && openAcks.Keys == Members(order)
      modifies this`openAcks, this`called, this`freed
      ensures Valid() && Run(setup, old(View()), trace, View())
      ensures openAcks.Keys == old(openAcks.Keys) - Overdue(setup, old(View()), order)
      ensures called == old(called) + multiset(Overdue(setup, old(View()), order))
      ensures forall q :: q in old(openAcks) ==>
                (q !in openAcks <==> q in timeSent && timeSent[q] > 0 && now - timeSent[q] > setup.waitAckTime)
    {
      ghost var before := View();
      ghost var due := Overdue(setup, before, order);
      trace := [];
      var rest := order;
      while rest != []
        invariant Valid() && Distinct(rest) && Members(rest) <= openAcks.Keys <= before.open
        invariant Run(setup, before, trace, View())
        invariant openAcks.Keys - Overdue(setup, before, rest) == before.open - due
        invariant called + multiset(Overdue(setup, before, rest)) == before.called + multiset(due)
      {
        trace := ExpireHead(rest, before, trace);
        rest := rest[1..];
      }
      assert Overdue(setup, before, rest) == {};
    }

    method CallAll(order: seq<int>)
      requires Valid()
      requires Distinct(order) && openAcks.Keys == Members(order)
      modifies this`openAcks, this`called, this`freed
      ensures Valid() && openAcks == map[]
      ensures called == old(called) + multiset(old(openAcks.Keys))
      ensures freed == old(freed) + Delivers(old(openAcks.Keys))
    {
      var rest := order;
      while rest != []
        invariant Valid()
        invariant Distinct(rest) && openAcks.Keys == Members(rest)
        invariant called + multiset(openAcks.Keys) == old(called) + multiset(old(openAcks.Keys))
        invariant freed + Delivers(openAcks.Keys) == old(freed) + Delivers(old(openAcks.Keys))
      {
        TailMembers(rest);
        OneLess(openAcks.Keys, rest[0]);
        RunCallback(rest[0]);
        rest := rest[1..];
      }
      NoDelivers(openAcks.Keys);
    }

    /** smpp_esme_destroy_open_acks: every callback still due runs. */
    method DestroyOpenAcks(order: seq<int>)
      requires Valid() && Enabled(setup, View(), Destroy)
      requires Distinct(order) && openAcks.Keys == Members(order)
      modifies this`openAcks, this`called, this`freed, this`destroyed
      ensures Valid() && View() == Apply(setup, old(View()), Destroy)
      ensures openAcks == map[] && destroyed && called == old(called) + multiset(old(openAcks.Keys))
    {
      CallAll(order);
      destroyed := true;
    }
  }

  lemma NoDelivers(keys: set<int>)
    requires keys == {}
    ensures Delivers(keys) == multiset{}
  {
    assert (set x | x in keys :: Deliver(x)) == {};
  }

  lemma OneLess(keys: set<int>, q: int)
    requires q in keys
    ensures multiset(keys) == multiset(keys - {q}) + multiset{q}
    ensures Delivers(keys) == Delivers(keys - {q}) + multiset{Deliver(q)}
  {
    var fewer := set x | x in keys - {q} :: Deliver(x);
    assert (set x | x in keys :: Deliver(x)) == fewer + {Deliver(q)};
  }
}
