/** The cleanup pass as code: the loop over the bind lists and the loop over the cleanup queue. */
module EsmePass {
  import opened Common
  import opened EsmeLifecycle

  lemma {:induction false} RunSnoc(s: State, first: seq<Event>, mid: State, e: Event)
    requires Run(s, first, mid) && Enabled(mid, e)
    ensures Run(s, first + [e], Apply(mid, e))
    decreases |first|
  {
    if first == [] {
      assert first + [e] == [e];
    } else {
      RunSnoc(Apply(s, first[0]), first[1..], mid, e);
      assert (first + [e])[1..] == first[1..] + [e];
    }
  }

  /** What the scan finds for one entry: how silent the ESME is, and whether the callback of one of its overdue
      acknowledgements disconnects it. */
  datatype Verdict = Verdict(silence: Silence, drops: bool)

  predicate GivesUp(x: Entry, connected: set<Esme>, v: Verdict) {
    x.esme !in connected || v.silence.Dead?
  }

  function StillConnected(x: Entry, connected: set<Esme>, v: Verdict): set<Esme> {
    if v.silence.Dead? || v.drops then connected - {x.esme} else connected
  }

  /** The entries the scan keeps: an ESME given up or disconnected at one entry is given up at those after it. */
  function Kept(entries: seq<Entry>, connected: set<Esme>, verdicts: seq<Verdict>): seq<Entry>
    requires |entries| == |verdicts|
  {
    if entries == [] then []
    else
      var rest := Kept(entries[1..], StillConnected(entries[0], connected, verdicts[0]), verdicts[1..]);
      if GivesUp(entries[0], connected, verdicts[0]) then rest else [entries[0]] + rest
  }

  /** The ESMEs the scan hands over for cleanup. */
  function GivenUp(entries: seq<Entry>, connected: set<Esme>, verdicts: seq<Verdict>): set<Esme>
    requires |entries| == |verdicts|
  {
    if entries == [] then {}
    else
      var rest := GivenUp(entries[1..], StillConnected(entries[0], connected, verdicts[0]), verdicts[1..]);
      if GivesUp(entries[0], connected, verdicts[0]) then {entries[0].esme} + rest else rest
  }

  lemma {:induction false} KeptAreConnected(entries: seq<Entry>, connected: set<Esme>, verdicts: seq<Verdict>)
    requires |entries| == |verdicts|
    ensures forall x :: x in Kept(entries, connected, verdicts) ==> x in entries && x.esme in connected
    ensures Esmes(entries) - connected <= GivenUp(entries, connected, verdicts)
    ensures Esmes(entries) == Esmes(Kept(entries, connected, verdicts)) + GivenUp(entries, connected, verdicts)
  {
    if entries != [] {
      var x, c := entries[0], StillConnected(entries[0], connected, verdicts[0]);
      KeptAreConnected(entries[1..], c, verdicts[1..]);
      EsmesOf([x], entries[1..]);
      assert [x] + entries[1..] == entries;
      EsmesOf(if GivesUp(x, connected, verdicts[0]) then [] else [x], Kept(entries[1..], c, verdicts[1..]));
    }
  }

  /** Entry `i` is connected, answers, and no earlier entry of the same ESME was dead or dropped it. */
  ghost predicate StaysListed(entries: seq<Entry>, connected: set<Esme>, verdicts: seq<Verdict>, i: nat)
    requires |entries| == |verdicts| && i < |entries|
  {
    && entries[i].esme in connected && verdicts[i].silence != Dead
    && forall j :: 0 <= j < i && entries[j].esme == entries[i].esme ==> verdicts[j].silence != Dead && !verdicts[j].drops
  }

  /** The entries kept are exactly those. */
  lemma {:induction false} KeptIff(entries: seq<Entry>, connected: set<Esme>, verdicts: seq<Verdict>, x: Entry)
    requires |entries| == |verdicts|
    ensures x in Kept(entries, connected, verdicts) <==>
            exists i :: 0 <= i < |entries| && entries[i] == x && StaysListed(entries, connected, verdicts, i)
    decreases |entries|
  {
    if entries != [] {
      var c, rest, later := StillConnected(entries[0], connected, verdicts[0]), entries[1..], verdicts[1..];
      KeptIff(rest, c, later, x);
      forall i: nat | i < |rest| { StaysInTail(entries, connected, verdicts, i); }
      assert StaysListed(entries, connected, verdicts, 0) <==> !GivesUp(entries[0], connected, verdicts[0]);
      if i :| 0 <= i < |rest| && rest[i] == x && StaysListed(rest, c, later, i) {
        assert entries[i + 1] == x && StaysListed(entries, connected, verdicts, i + 1);
      }
      if i :| 0 < i < |entries| && entries[i] == x && StaysListed(entries, connected, verdicts, i) {
        assert rest[i - 1] == x && StaysListed(rest, c, later, i - 1);
      }
    }
  }

  /** And the ESMEs handed over are exactly those of the other entries. */
  lemma {:induction false} GivenUpIff(entries: seq<Entry>, connected: set<Esme>, verdicts: seq<Verdict>, e: Esme)
    requires |entries| == |verdicts|
    ensures e in GivenUp(entries, connected, verdicts) <==>
            exists i :: 0 <= i < |entries| && entries[i].esme == e && !StaysListed(entries, connected, verdicts, i)
    decreases |entries|
  {
    if entries != [] {
      var c, rest, later := StillConnected(entries[0], connected, verdicts[0]), entries[1..], verdicts[1..];
      GivenUpIff(rest, c, later, e);
      forall i: nat | i < |rest| { StaysInTail(entries, connected, verdicts, i); }
      assert StaysListed(entries, connected, verdicts, 0) <==> !GivesUp(entries[0], connected, verdicts[0]);
      if i :| 0 <= i < |rest| && rest[i].esme == e && !StaysListed(rest, c, later, i) {
        assert entries[i + 1].esme == e && !StaysListed(entries, connected, verdicts, i + 1);
      }
      if i :| 0 < i < |entries| && entries[i].esme == e && !StaysListed(entries, connected, verdicts, i) {
        assert rest[i - 1].esme == e && !StaysListed(rest, c, later, i - 1);
      }
    }
  }

  lemma StaysInTail(entries: seq<Entry>, connected: set<Esme>, verdicts: seq<Verdict>, i: nat)
    requires |entries| == |verdicts| && i + 1 < |entries|
    ensures StaysListed(entries[1..], StillConnected(entries[0], connected, verdicts[0]), verdicts[1..], i)
       <==> StaysListed(entries, connected, verdicts, i + 1)
  {
    var rest, later := entries[1..], verdicts[1..];
    assert forall j :: 0 <= j < |rest| ==> rest[j] == entries[j + 1] && later[j] == verdicts[j + 1];
    if StaysListed(entries, connected, verdicts, i + 1) {
      assert forall j :: 0 <= j < i ==> rest[j] == entries[j + 1] && later[j] == verdicts[j + 1];
    } else if StaysListed(rest, StillConnected(entries[0], connected, verdicts[0]), later, i) {
      forall j | 0 <= j < i + 1 && entries[j].esme == entries[i + 1].esme
        ensures verdicts[j].silence != Dead && !verdicts[j].drops
      {
        if j > 0 { assert rest[j - 1] == entries[j] && later[j - 1] == verdicts[j]; }
      }
    }
  }

  lemma EsmesOf(a: seq<Entry>, b: seq<Entry>)
    ensures Esmes(a + b) == Esmes(a) + Esmes(b)
  {
  }

  function Members(l: seq<Esme>): set<Esme> {
    set e | e in l
  }

  /** The part of the cleanup queue that a pass destroys, and the part it leaves. */
  function Taken(queue: seq<Esme>, b: Books): seq<Esme> {
    if queue == [] then [] else (if MayDestroy(b, queue[0]) then [queue[0]] else []) + Taken(queue[1..], b)
  }

  function Spared(queue: seq<Esme>, b: Books): seq<Esme> {
    if queue == [] then [] else (if MayDestroy(b, queue[0]) then [] else [queue[0]]) + Spared(queue[1..], b)
  }

  /** Nothing of this ESME is queued or being routed, and it was last processed more than ten seconds ago. */
  predicate IsIdle(b: Books, e: Esme) {
    && e in b.counters && e in b.last
    && b.counters[e].inboundQueued + b.counters[e].outboundQueued + b.counters[e].pendingRouting <= 0
    && b.now - b.last[e] > 10
  }

  lemma {:induction false} SweptIff(queue: seq<Esme>, b: Books, e: Esme)
    ensures e in Taken(queue, b) <==> e in queue && IsIdle(b, e)
    ensures e in Spared(queue, b) <==> e in queue && !IsIdle(b, e)
  {
    if queue != [] { SweptIff(queue[1..], b, e); }
  }

  class EsmeData {
    var connected: set<Esme>
    var binds: seq<Entry>
    var cleanupQueue: seq<Esme>
    var phase: Phase
    var destroyed: multiset<Esme>
    var books: Books
    ghost var known: set<Esme>
    ghost var authenticated: set<Esme>

    ghost function View(): State
      reads this
    {
      State(Roster(known, connected, authenticated, binds, cleanupQueue, phase, destroyed), books)
    }

    /** Since `before`, this has happened. (The quantifier keeps the verifier from unfolding `Run` wherever it
        is carried along.) */
    ghost predicate Since(before: State, trace: seq<Event>)
      reads this
    {
      exists now :: now == View() && Run(before, trace, now)
    }

    constructor (now: int)
      requires now >= 0
      ensures Initial(View())
    {
      connected, binds, cleanupQueue, phase, destroyed := {}, [], [], Idle, multiset{};
      books := Books(multiset{}, multiset{}, multiset{}, multiset{}, map[], map[], map[], now);
      known, authenticated := {}, {};
    }

    /** A bind that was accepted: the ESME is listed once more, whether or not it is listed already. */
    method GlobalAdd(t: nat, account: string)
      requires Enabled(View(), Bind(t, account))
      modifies this
      ensures View() == Apply(old(View()), Bind(t, account))
      ensures binds == old(binds) + [Entry(account, books.hand[t].esme)] && cleanupQueue == old(cleanupQueue)
    {
      ghost var x := books.hand[t].esme;
      authenticated := authenticated + {x};
      binds := binds + [Entry(account, books.hand[t].esme)];
    }

    /** smpp_esme_cleanup. */
    method Dispose(e: Esme)
      modifies this`connected, this`cleanupQueue
      ensures View().r == Cleanup(old(View().r), e)
      ensures connected == old(connected) - {e}
      ensures cleanupQueue == if e in old(cleanupQueue) || (phase.Sweeping? && phase.swaps) then old(cleanupQueue)
                              else old(cleanupQueue) + [e]
    {
      connected := connected - {e};
      if !(phase.Sweeping? && phase.swaps) && e !in cleanupQueue {
        cleanupQueue := cleanupQueue + [e];
      }
    }

    method ScanEntry(v: Verdict, ghost before: State, ghost trace: seq<Event>) returns (ghost longer: seq<Event>)
      requires Enabled(View(), ScanNext(v.silence)) && Since(before, trace)
      modifies this`connected, this`cleanupQueue, this`phase, this`books
      ensures Since(before, longer) && books.counters.Keys == old(books.counters.Keys)
      ensures var x := old(phase.todo[0]);
        && phase == Scanning(old(phase.todo[1..]), old(phase.kept) + if GivesUp(x, old(connected), v) then [] else [x])
        && connected == StillConnected(x, old(connected), v)
        && cleanupQueue == (if GivesUp(x, old(connected), v) then AppendUnique(old(cleanupQueue), x.esme) else old(cleanupQueue))
        && books.outbound == old(books.outbound)
             + (if x.esme in old(connected) && v.silence == Quiet then multiset{x.esme} else multiset{})
    {
      RunSnoc(before, trace, View(), ScanNext(v.silence));
      longer := trace + [ScanNext(v.silence)];
      var x, rest, kept := phase.todo[0], phase.todo[1..], phase.kept;
      if x.esme !in connected {
        Dispose(x.esme);
        phase := Scanning(rest, kept);
      } else {
        if v.silence.Dead? {
          Dispose(x.esme);
          phase := Scanning(rest, kept);
        } else {
          if v.silence.Quiet? {
            books := QueueOutbound(books, x.esme);
          }
          phase := Scanning(rest, kept + [x]);
        }
        if v.drops {
          longer := Disconnect(x.esme, before, longer);
        }
      }
    }

    /** smpp_esme_disconnect. */
    method Disconnect(e: Esme, ghost before: State, ghost trace: seq<Event>) returns (ghost longer: seq<Event>)
      requires Since(before, trace)
      modifies this`connected
      ensures Since(before, longer) && connected == old(connected) - {e}
    {
      RunSnoc(before, trace, View(), Stop(e));
      longer := trace + [Stop(e)];
      connected := connected - {e};
    }

    /** One turn of the first loop, and what it does to the lists. */
    method ScanHead(verdicts: seq<Verdict>, ghost before: State, ghost trace: seq<Event>) returns (ghost longer: seq<Event>)
      requires phase.Scanning? && phase.todo != [] && |phase.todo| == |verdicts| && Since(before, trace)
      requires forall x :: x in phase.todo ==> x.esme in books.counters
      modifies this`connected, this`cleanupQueue, this`phase, this`books
      ensures Since(before, longer)
      ensures phase.Scanning? && phase.todo == old(phase.todo)[1..] && books.counters.Keys == old(books.counters.Keys)
      ensures phase.kept + Kept(phase.todo, connected, verdicts[1..])
           == old(phase.kept) + Kept(old(phase.todo), old(connected), verdicts)
      ensures Members(cleanupQueue) + GivenUp(phase.todo, connected, verdicts[1..])
           == Members(old(cleanupQueue)) + GivenUp(old(phase.todo), old(connected), verdicts)
      ensures connected == StillConnected(old(phase.todo)[0], old(connected), verdicts[0])
    {
      longer := ScanEntry(verdicts[0], before, trace);
      assert Members(AppendUnique(old(cleanupQueue), old(phase.todo)[0].esme))
          == Members(old(cleanupQueue)) + {old(phase.todo)[0].esme};
    }

    method StartScan() returns (ghost trace: seq<Event>)
      requires Inv(View()) && phase.Idle?
      modifies this`phase
      ensures phase == Scanning(binds, []) && Run(old(View()), trace, View())
      ensures forall x :: x in binds ==> x.esme in books.counters
    {
      RunSnoc(View(), [], View(), BeginPass);
      trace := [BeginPass];
      phase := Scanning(binds, []);
    }

    method ScanEntries(verdicts: seq<Verdict>, ghost before: State, ghost trace: seq<Event>) returns (ghost longer: seq<Event>)
      requires phase == Scanning(binds, []) && |verdicts| == |binds| && Since(before, trace)
      requires forall x :: x in binds ==> x.esme in books.counters
      modifies this`connected, this`cleanupQueue, this`phase, this`books
      ensures Since(before, longer)
      ensures phase == Scanning([], Kept(binds, old(connected), verdicts)) && connected <= old(connected)
      ensures Members(cleanupQueue) == Members(old(cleanupQueue)) + GivenUp(binds, old(connected), verdicts)
    {
      longer := trace;
      var i := 0;
      while i < |verdicts|
        invariant 0 <= i <= |verdicts| && phase.Scanning? && phase.todo == binds[i..]
        invariant Since(before, longer) && connected <= old(connected)
        invariant forall x :: x in binds ==> x.esme in books.counters
        invariant phase.kept + Kept(phase.todo, connected, verdicts[i..]) == Kept(binds, old(connected), verdicts)
        invariant Members(cleanupQueue) + GivenUp(phase.todo, connected, verdicts[i..])
               == Members(old(cleanupQueue)) + GivenUp(binds, old(connected), verdicts)
      {
        longer := ScanHead(verdicts[i..], before, longer);
        i := i + 1;
      }
    }

    /** The first loop of the pass, with nothing else running: what it leaves in the bind lists, and that
        it hands over for cleanup exactly what it finds disconnected or gives up. */
    method ScanBinds(verdicts: seq<Verdict>) returns (ghost trace: seq<Event>)
      requires Inv(View()) && phase.Idle? && |verdicts| == |binds|
      modifies this`connected, this`cleanupQueue, this`phase, this`books
      ensures Run(old(View()), trace, View())
      ensures phase == Scanning([], Kept(old(binds), old(connected), verdicts)) && connected <= old(connected)
      ensures Members(cleanupQueue) == Members(old(cleanupQueue)) + GivenUp(old(binds), old(connected), verdicts)
    {
      ghost var before := View();
      trace := StartScan();
      trace := ScanEntries(verdicts, before, trace);
    }

    method SweepEntry(ghost before: State, ghost trace: seq<Event>) returns (ghost longer: seq<Event>)
      requires Enabled(View(), SweepNext) && Since(before, trace)
      modifies this`connected, this`phase, this`destroyed
      ensures Since(before, longer)
      ensures View().r == SweepStep(old(View().r), MayDestroy(books, old(phase.queue[0])))
      ensures destroyed == old(destroyed) + if IsIdle(books, old(phase.queue[0])) then multiset{old(phase.queue[0])} else multiset{}
    {
      RunSnoc(before, trace, View(), SweepNext);
      longer := trace + [SweepNext];
      var e, rest, left := phase.queue[0], phase.queue[1..], phase.left;
      if MayDestroy(books, e) {
        destroyed := destroyed + multiset{e};
        connected := connected - {e};
        phase := phase.(queue := rest);
      } else {
        phase := phase.(queue := rest, left := left + [e]);
      }
    }

    method StartSweep(ghost before: State, ghost trace: seq<Event>) returns (ghost longer: seq<Event>)
      requires phase.Scanning? && phase.todo == [] && Since(before, trace)
      modifies this`binds, this`cleanupQueue, this`phase
      ensures Since(before, longer) && binds == old(phase.kept) && cleanupQueue == []
      ensures phase == Sweeping(old(cleanupQueue), [], old(cleanupQueue) != [])
    {
      RunSnoc(before, trace, View(), EndScan);
      longer := trace + [EndScan];
      binds := phase.kept;
      phase := Sweeping(cleanupQueue, [], cleanupQueue != []);
      cleanupQueue := [];
    }

    /** One turn of the second loop. */
    method SweepHead(ghost before: State, ghost trace: seq<Event>) returns (ghost longer: seq<Event>)
      requires Enabled(View(), SweepNext) && Since(before, trace)
      modifies this`connected, this`phase, this`destroyed
      ensures Since(before, longer)
      ensures phase.Sweeping? && phase.queue == old(phase.queue)[1..]
      ensures phase.left + Spared(phase.queue, books) == old(phase.left) + Spared(old(phase.queue), books)
      ensures destroyed + multiset(Taken(phase.queue, books)) == old(destroyed) + multiset(Taken(old(phase.queue), books))
    {
      HeadSwept(phase.left, phase.queue, books);
      longer := SweepEntry(before, trace);
    }

    method FinishSweep(ghost before: State, ghost trace: seq<Event>) returns (ghost longer: seq<Event>)
      requires phase.Sweeping? && phase.queue == [] && Since(before, trace)
      modifies this`cleanupQueue, this`phase
      ensures Since(before, longer) && phase.Idle? && cleanupQueue == old(phase.left) + old(cleanupQueue)
    {
      RunSnoc(before, trace, View(), EndPass);
      longer := trace + [EndPass];
      cleanupQueue := phase.left + cleanupQueue;
      phase := Idle;
    }

    /** The second loop: exactly those without queued PDUs or pending routes, and long enough quiet, are
        destroyed; the others stay in order. */
    method SweepQueue(ghost before: State, ghost trace: seq<Event>) returns (ghost longer: seq<Event>)
      requires phase.Scanning? && phase.todo == [] && Since(before, trace)
      modifies this`binds, this`cleanupQueue, this`phase, this`connected, this`destroyed
      ensures Since(before, longer) && phase.Idle?
      ensures binds == old(phase.kept) && cleanupQueue == Spared(old(cleanupQueue), books)
      ensures destroyed == old(destroyed) + multiset(Taken(old(cleanupQueue), books))
      ensures forall e :: e in old(cleanupQueue) ==>
                if IsIdle(books, e) then e !in cleanupQueue && destroyed[e] > old(destroyed)[e]
                else e in cleanupQueue && destroyed[e] == old(destroyed)[e]
    {
      ghost var all := cleanupQueue;
      forall e { SweptIff(all, books, e); }
      longer := StartSweep(before, trace);
      while phase.queue != []
        invariant phase.Sweeping?
        invariant Since(before, longer)
        invariant phase.left + Spared(phase.queue, books) == Spared(all, books)
        invariant destroyed + multiset(Taken(phase.queue, books)) == old(destroyed) + multiset(Taken(all, books))
        decreases |phase.queue|
        modifies this`connected, this`phase, this`destroyed
      {
        longer := SweepHead(before, longer);
      }
      longer := FinishSweep(before, longer);
    }

    /** smpp_esme_cleanup_thread's pass, with nothing else running. */
    method CleanupPass(verdicts: seq<Verdict>) returns (ghost trace: seq<Event>)
      requires Inv(View()) && phase.Idle? && |verdicts| == |binds|
      modifies this
      ensures Run(old(View()), trace, View()) && phase.Idle?
      ensures binds == Kept(old(binds), old(connected), verdicts)
      ensures forall x :: x in binds <==>
                exists i :: 0 <= i < |old(binds)| && old(binds)[i] == x && StaysListed(old(binds), old(connected), verdicts, i)
    {
      forall x { KeptIff(binds, connected, verdicts, x); }
      ghost var before := View();
      trace := ScanBinds(verdicts);
      trace := SweepQueue(before, trace);
    }
  }

  lemma HeadSwept(left: seq<Esme>, queue: seq<Esme>, b: Books)
    requires queue != []
    ensures left + Spared(queue, b) == (if MayDestroy(b, queue[0]) then left else left + [queue[0]]) + Spared(queue[1..], b)
    ensures multiset(Taken(queue, b))
         == (if MayDestroy(b, queue[0]) then multiset{queue[0]} else multiset{}) + multiset(Taken(queue[1..], b))
  {
    HeadOf(left, queue[0], Spared(queue[1..], b), MayDestroy(b, queue[0]));
    HeadOf([], queue[0], Taken(queue[1..], b), !MayDestroy(b, queue[0]));
    assert Taken(queue, b) == (if MayDestroy(b, queue[0]) then [queue[0]] else []) + Taken(queue[1..], b);
  }

  lemma HeadOf(left: seq<Esme>, e: Esme, rest: seq<Esme>, skip: bool)
    ensures left + ((if skip then [] else [e]) + rest) == (if skip then left else left + [e]) + rest
  {
  }
}
