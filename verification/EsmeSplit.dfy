/** Exactly when a cleanup pass destroys an ESME that an account still lists. */
module EsmeSplit {
  import opened Common
  import opened EsmeLifecycle

  /** The ESME that this step hands over for cleanup although the scan has kept it for a bind: the scan itself
      does it at another bind, or the listener for one that it saw unauthenticated. */
  ghost function NewSplit(s: State, e: Event): set<Esme> {
    if e.CleanupOutside? && s.r.phase.Scanning? && e.e in Esmes(s.r.phase.kept) then {e.e}
    else if e.ScanNext? && Enabled(s, e) && !NotKept(s.r, e.silence) then {s.r.phase.todo[0].esme} else {}
  }

  /** All those of a run. */
  ghost function Splits(s: State, events: seq<Event>): set<Esme>
    decreases |events|
  {
    if events == [] || !Enabled(s, events[0]) then {}
    else NewSplit(s, events[0]) + Splits(Apply(s, events[0]), events[1..])
  }

  /** One pass: it is not begun again, and not ended. What runs beside it is not restricted. */
  predicate WithinPass(events: seq<Event>) {
    forall i :: 0 <= i < |events| ==> !events[i].BeginPass? && !events[i].EndPass?
  }

  predicate Listed(r: Roster, e: Esme) {
    exists x :: x in r.binds && x.esme == e
  }

  /** The next step of the sweep destroys `e`. */
  ghost predicate Destroys(s: State, e: Esme) {
    Enabled(s, SweepNext) && Apply(s, SweepNext).r.destroyed[e] > s.r.destroyed[e]
  }

  // ------------------------------------------------------------------ the invariant of a pass

  function Members(l: seq<Esme>): set<Esme> {
    set e | e in l
  }

  /** While scanning, an ESME is both kept and queued for cleanup exactly when it was split; while sweeping,
      one still to be swept is listed exactly then. */
  ghost predicate PassInv(r: Roster, split: set<Esme>) {
    && !r.phase.Idle? && r.connected <= r.known
    && Distinct(Doomed(r)) && (forall e :: e in Doomed(r) ==> e in r.known && e !in r.connected)
    && (forall x :: x in Entries(r) ==> x.esme in r.authenticated)
    && (r.phase.Scanning? ==> Esmes(r.phase.kept) * Members(r.cleanup) == split)
    && (r.phase.Sweeping? ==> forall e :: e in r.phase.queue + r.phase.left ==> (e in split <==> e in Esmes(r.binds)))
    && (r.phase.Sweeping? ==> (r.phase.swaps ==> r.cleanup == []) && (!r.phase.swaps ==> r.phase.queue + r.phase.left == []))
  }

  lemma BeginsPass(s: State)
    requires Inv(s) && Enabled(s, BeginPass)
    ensures PassInv(Apply(s, BeginPass).r, {})
  {
    assert Entries(Apply(s, BeginPass).r) == s.r.binds == Entries(s.r);
    assert Doomed(Apply(s, BeginPass).r) == Doomed(s.r);
  }

  lemma HandedOver(r: Roster, split: set<Esme>, e: Esme)
    requires PassInv(r, split) && e in r.known
    ensures PassInv(Cleanup(r, e), if r.phase.Scanning? && e in Esmes(r.phase.kept) then split + {e} else split)
  {
    var t := Cleanup(r, e);
    if t.cleanup == r.cleanup {
      assert Doomed(t) == Doomed(r);
      if r.phase.Scanning? { assert e in Members(r.cleanup); }
    } else if r.phase.Sweeping? {
      assert Doomed(r) == r.cleanup && Doomed(t) == t.cleanup == r.cleanup + [e];
      Appended(r.cleanup, e);
    } else {
      QueuedInScan(r, t, split, e);
    }
  }

  lemma QueuedInScan(r: Roster, t: Roster, split: set<Esme>, e: Esme)
    requires PassInv(r, split) && r.phase.Scanning? && e in r.known && e !in r.cleanup
    requires t == r.(connected := r.connected - {e}, cleanup := r.cleanup + [e])
    ensures PassInv(t, if e in Esmes(r.phase.kept) then split + {e} else split)
  {
    assert Doomed(r) == r.cleanup && Doomed(t) == t.cleanup;
    Appended(r.cleanup, e);
    OneMoreMember(r.cleanup, e);
  }

  lemma OneMoreMember(l: seq<Esme>, e: Esme)
    ensures Members(l + [e]) == Members(l) + {e}
  {
  }

  lemma ScanStepSplits(s: State, silence: Silence, split: set<Esme>)
    requires PassInv(s.r, split) && Enabled(s, ScanNext(silence)) && s.r.phase.todo[0].esme in s.r.known
    ensures PassInv(ScanStep(s.r, silence), split + NewSplit(s, ScanNext(silence)))
  {
    var r, x := s.r, s.r.phase.todo[0];
    var kept, todo := r.phase.kept, r.phase.todo;
    if Condemned(r, x.esme, silence) {
      HandedOver(r, split, x.esme);
      var c := Cleanup(r, x.esme);
      var t := c.(phase := Scanning(todo[1..], kept));
      assert Doomed(t) == Doomed(c) && forall y :: y in Entries(t) ==> y in Entries(c);
      assert split + NewSplit(s, ScanNext(silence)) == if x.esme in Esmes(kept) then split + {x.esme} else split;
    } else {
      var t := r.(phase := Scanning(todo[1..], kept + [x]));
      assert kept + [x] + todo[1..] == kept + todo && Doomed(t) == Doomed(r);
      assert Esmes(kept + [x]) == Esmes(kept) + {x.esme};
      assert x.esme !in Members(r.cleanup);
    }
  }

  lemma SweepStepSplits(r: Roster, destroy: bool, split: set<Esme>)
    requires PassInv(r, split) && r.phase.Sweeping? && r.phase.queue != []
    ensures PassInv(SweepStep(r, destroy), split)
  {
    var e, rest := r.phase.queue[0], r.phase.queue[1..];
    assert r.cleanup == [] && Doomed(r) == [e] + (rest + r.phase.left);
    var t := SweepStep(r, destroy);
    if destroy {
      Head(e, rest + r.phase.left);
      assert Doomed(t) == rest + r.phase.left;
    } else {
      Rotated(e, rest, r.phase.left);
      assert Doomed(t) == rest + (r.phase.left + [e]);
    }
    forall y | y in Doomed(t) ensures y in Doomed(r) {}
    forall y | y in t.phase.queue + t.phase.left ensures y in r.phase.queue + r.phase.left {}
  }

  /** The ESMEs of all entries exist. */
  ghost predicate EntriesKnown(r: Roster) {
    (forall x :: x in Entries(r) ==> x.esme in r.known) && r.authenticated <= r.known
  }

  lemma StepKeepsPass(s: State, e: Event, split: set<Esme>)
    requires PassInv(s.r, split) && EntriesKnown(s.r) && Enabled(s, e) && !e.BeginPass? && !e.EndPass?
    ensures PassInv(RosterAfter(s, e), split + NewSplit(s, e)) && EntriesKnown(RosterAfter(s, e))
  {
    var t := RosterAfter(s, e);
    assert NewSplit(s, e) == {} ==> split + NewSplit(s, e) == split;
    match e
    case ScanNext(silence) =>
      assert s.r.phase.todo[0] in Entries(s.r);
      ScanStepSplits(s, silence, split);
      assert forall x :: x in Entries(t) ==> x in Entries(s.r);
    case SweepNext => SweepStepSplits(s.r, MayDestroy(s.b, s.r.phase.queue[0]), split);
    case CleanupOutside(x) => HandedOver(s.r, split, x);
    case EndScan => assert Doomed(t) == s.r.cleanup && Entries(s.r) == s.r.phase.kept;
    case Connect(x) => assert Doomed(t) == Doomed(s.r);
    case Stop(x) => assert Doomed(t) == Doomed(s.r);
    case _ =>
  }

  lemma {:induction false} RunKeepsPass(s: State, events: seq<Event>, t: State, split: set<Esme>)
    requires PassInv(s.r, split) && EntriesKnown(s.r) && Run(s, events, t) && WithinPass(events)
    ensures PassInv(t.r, split + Splits(s, events))
    decreases |events|
  {
    if events == [] {
      assert split + {} == split;
    } else {
      StepKeepsPass(s, events[0], split);
      assert WithinPass(events[1..]);
      RunKeepsPass(Apply(s, events[0]), events[1..], t, split + NewSplit(s, events[0]));
      assert split + NewSplit(s, events[0]) + Splits(Apply(s, events[0]), events[1..]) == split + Splits(s, events);
    }
  }

  /** A pass, whatever runs beside it, destroys an ESME that an account still lists exactly when that
      ESME was handed over for cleanup after the scan had kept it for a bind, and it may be destroyed when it is
      swept. */
  lemma DestroyedWhileListedIff(s: State, events: seq<Event>, t: State, e: Esme)
    requires Inv(s) && Enabled(s, BeginPass) && Run(Apply(s, BeginPass), events, t) && WithinPass(events)
    requires Enabled(t, SweepNext) && t.r.phase.queue[0] == e
    ensures Destroys(t, e) && Listed(t.r, e) <==> e in Splits(Apply(s, BeginPass), events) && MayDestroy(t.b, e)
  {
    var s1 := Apply(s, BeginPass);
    BeginsPass(s);
    assert Entries(s1.r) == Entries(s.r);
    RunKeepsPass(s1, events, t, {});
    assert {} + Splits(s1, events) == Splits(s1, events);
    assert e in t.r.phase.queue + t.r.phase.left;
    assert Listed(t.r, e) <==> e in Esmes(t.r.binds);
  }
}
