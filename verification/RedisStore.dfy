/** One message store kept in Redis: a list that is popped and pushed at its head, a dictionary of
    claims, and the index of services with stored messages. */
module RedisStore {
  import opened Common

  const BATCH_LIMIT: int := 1000
  const MAX_EMPTY_BATCHES: nat := 32
  const GLOBAL_SERVICE: string := "_global_"

  /** What json_loads makes of one list entry. */
  datatype Content = NotAnObject | Message(smsType: SmsType, service: string)

  datatype Blob = Blob(globalId: int, content: Content, payload: nat)

  function NormService(service: string): string {
    if service == "" then GLOBAL_SERVICE else Lower(service)
  }

  predicate Matches(b: Blob, smsType: SmsType, filter: string) {
    && b.content.Message? && b.content.smsType == smsType
    && (filter == "" || NormService(filter) == NormService(b.content.service))
  }

  // ------------------------------------------------------------------ commands

  /** `mine` are the entries one reader has popped and not yet dealt with, `theirs` those of every
      other client. `used` are the ids INCR has given out. The last three fields are history; `lost` are the
      entries whose push back on the list failed. */
  datatype State = State(queue: seq<Blob>, mine: multiset<Blob>, theirs: multiset<Blob>,
                         pending: map<int, Blob>, used: set<int>, index: set<string>,
                         added: multiset<Blob>, removed: multiset<Blob>, lost: multiset<Blob>)

  datatype Who = Me | Others

  datatype Event =
    | Add(b: Blob, indexed: bool)
    | AddFailed(id: int)
    | Pop(who: Who, count: nat)
    | Claim(who: Who, b: Blob)
    | PushBack(who: Who, b: Blob)
    | Lose(who: Who, b: Blob)
    | Release(id: int, temporary: bool)
    | ReleaseLost(id: int)
    | Pickup(count: nat)

  function Hand(s: State, who: Who): multiset<Blob> {
    match who case Me => s.mine case Others => s.theirs
  }

  function WithHand(s: State, who: Who, h: multiset<Blob>): State {
    match who case Me => s.(mine := h) case Others => s.(theirs := h)
  }

  function Indexed(index: set<string>, b: Blob): set<string> {
    if b.content.Message? then index + {NormService(b.content.service)} else index
  }

  ghost predicate Enabled(s: State, e: Event) {
    match e
    case Add(b, _) => b.content.Message? ==> b.globalId !in s.used
    case AddFailed(id) => id !in s.used
    case Pop(_, _) => true
    case Claim(who, b) => b in Hand(s, who) && b.content.Message?
    case PushBack(who, b) => b in Hand(s, who)
    case Lose(who, b) => b in Hand(s, who)
    case Release(id, _) => id in s.pending
    case ReleaseLost(id) => id in s.pending
    case Pickup(_) => true
  }

  /** `Add` is INCR, LPUSH and SADD; an outside client may leave out the SADD, and then it is not `indexed`.
      `AddFailed` is the server's when the LPUSH fails. `Release` is smpp_database_redis_remove. `Lose` and
      `ReleaseLost` are a push back and a temporary release whose LPUSH fails: nobody holds the entry any more.
      `Pickup` is an outside client that takes entries for good. */
  ghost function Apply(s: State, e: Event): State
    requires Enabled(s, e)
  {
    match e
    case Add(b, indexed) => s.(queue := [b] + s.queue, used := s.used + {b.globalId},
                               index := if indexed then Indexed(s.index, b) else s.index,
                      added := s.added + multiset{b})
    case AddFailed(id) => s.(used := s.used + {id})
    case Pop(who, count) =>
      var n := Min(count, |s.queue|);
      WithHand(s, who, Hand(s, who) + multiset(s.queue[..n])).(queue := s.queue[n..])
    case Claim(who, b) =>
      WithHand(s, who, Hand(s, who) - multiset{b}).(pending := s.pending[b.globalId := b])
    case PushBack(who, b) => WithHand(s, who, Hand(s, who) - multiset{b}).(queue := [b] + s.queue)
    case Lose(who, b) => WithHand(s, who, Hand(s, who) - multiset{b}).(lost := s.lost + multiset{b})
    case ReleaseLost(id) => s.(pending := s.pending - {id}, lost := s.lost + multiset{s.pending[id]})
    case Release(id, temporary) =>
      var b := s.pending[id];
      if temporary then s.(pending := s.pending - {id}, queue := [b] + s.queue, index := Indexed(s.index, b))
      else s.(pending := s.pending - {id}, removed := s.removed + multiset{b})
    case Pickup(count) =>
      var n := Min(count, |s.queue|);
      s.(queue := s.queue[n..], removed := s.removed + multiset(s.queue[..n]))
  }

  ghost predicate Run(s: State, events: seq<Event>, t: State)
    decreases |events|
  {
    if events == [] then s == t
    else Enabled(s, events[0]) && Run(Apply(s, events[0]), events[1..], t)
  }

  /** Only the other clients act. */
  ghost predicate ByOthers(events: seq<Event>) {
    forall i :: 0 <= i < |events| ==>
      match events[i] {
        case Pop(who, _) => who.Others?
        case Claim(who, _) => who.Others?
        case PushBack(who, _) => who.Others?
        case Lose(who, _) => who.Others?
        case _ => true
      }
  }

  // ------------------------------------------------------------------ conservation

  function Claimed(pending: map<int, Blob>): set<Blob> {
    set id | id in pending :: pending[id]
  }

  /** Everything ever added is in the list, in some client's hand, claimed, removed, or lost. */
  ghost predicate Conserved(s: State) {
    s.added == multiset(s.queue) + s.mine + s.theirs + multiset(Claimed(s.pending)) + s.removed + s.lost
  }

  ghost predicate IdsUnique(s: State) {
    && (forall id :: id in s.pending ==> s.pending[id].globalId == id && s.pending[id].content.Message?)
    && (forall b :: b in s.added && b.content.Message? ==> b.globalId in s.used && s.added[b] == 1)
    && (forall b, c | b in s.added && c in s.added && b.content.Message? && c.content.Message?
                        && b.globalId == c.globalId :: b == c)
  }

  ghost predicate Inv(s: State) {
    Conserved(s) && IdsUnique(s)
  }

  ghost predicate Empty(s: State) {
    && s.queue == [] && s.mine == multiset{} && s.theirs == multiset{} && s.pending == map[]
    && s.added == multiset{} && s.removed == multiset{} && s.lost == multiset{}
  }

  /** A claim takes a free slot: no claimed entry has the same id. */
  lemma ClaimIsFresh(s: State, who: Who, b: Blob)
    requires Inv(s) && Enabled(s, Claim(who, b))
    ensures b.globalId !in s.pending && b !in Claimed(s.pending) && b in s.added
  {
    assert b in s.added && s.added[b] == 1;
    assert forall id :: id in s.pending ==> s.pending[id] in Claimed(s.pending);
  }

  lemma PendingGrows(p: map<int, Blob>, id: int, b: Blob)
    requires id !in p && b !in Claimed(p)
    ensures multiset(Claimed(p[id := b])) == multiset(Claimed(p)) + multiset{b}
  {
    assert Claimed(p[id := b]) == Claimed(p) + {b} by {
      assert p[id := b][id] == b;
      forall i | i in p ensures p[i] in Claimed(p[id := b]) {
        assert p[id := b][i] == p[i];
      }
    }
  }

  lemma PendingShrinks(p: map<int, Blob>, id: int)
    requires id in p && forall i :: i in p ==> p[i].globalId == i
    ensures multiset(Claimed(p - {id})) == multiset(Claimed(p)) - multiset{p[id]}
    ensures p[id] in multiset(Claimed(p))
  {
    assert Claimed(p - {id}) == Claimed(p) - {p[id]} by {
      forall i | i in p && i != id ensures p[i] in Claimed(p - {id}) {
        assert (p - {id})[i] == p[i];
      }
    }
  }

  lemma AddStepKeepsInv(s: State, b: Blob, indexed: bool)
    requires Inv(s) && Enabled(s, Add(b, indexed))
    ensures Inv(Apply(s, Add(b, indexed)))
  {
    var t := Apply(s, Add(b, indexed));
    assert multiset([b] + s.queue) == multiset{b} + multiset(s.queue);
    assert b.content.Message? ==> b !in s.added;
    assert IdsUnique(t);
  }

  /** Entries only move. */
  lemma SameHistory(s: State, t: State)
    requires Inv(s) && Conserved(t)
    requires t.added == s.added && t.used == s.used && t.pending == s.pending
    ensures Inv(t)
  {
  }

  lemma PushBackKeepsInv(s: State, who: Who, b: Blob)
    requires Inv(s) && Enabled(s, PushBack(who, b))
    ensures Inv(Apply(s, PushBack(who, b)))
  {
    var t := Apply(s, PushBack(who, b));
    PushBackConserves(s, who, b);
    assert t.added == s.added && t.used == s.used && t.pending == s.pending by {
      match who case Me => case Others =>
    }
    SameHistory(s, t);
  }

  lemma PushBackConserves(s: State, who: Who, b: Blob)
    requires Conserved(s) && Enabled(s, PushBack(who, b))
    ensures Conserved(Apply(s, PushBack(who, b)))
  {
    assert multiset([b] + s.queue) == multiset{b} + multiset(s.queue);
    match who case Me => case Others =>
  }

  lemma Halves(q: seq<Blob>, n: nat)
    requires n <= |q|
    ensures multiset(q) == multiset(q[..n]) + multiset(q[n..])
  {
    assert q == q[..n] + q[n..];
  }

  lemma PopConserves(s: State, who: Who, count: nat)
    requires Conserved(s)
    ensures Conserved(Apply(s, Pop(who, count)))
  {
    Halves(s.queue, Min(count, |s.queue|));
    match who case Me => case Others =>
  }

  lemma PopStepKeepsInv(s: State, who: Who, count: nat)
    requires Inv(s)
    ensures Inv(Apply(s, Pop(who, count)))
  {
    var t := Apply(s, Pop(who, count));
    PopConserves(s, who, count);
    assert t.added == s.added && t.used == s.used && t.pending == s.pending by {
      match who case Me => case Others =>
    }
    SameHistory(s, t);
  }

  lemma PickupConserves(s: State, count: nat)
    requires Conserved(s)
    ensures Conserved(Apply(s, Pickup(count)))
  {
    Halves(s.queue, Min(count, |s.queue|));
  }

  lemma PickupKeepsInv(s: State, count: nat)
    requires Inv(s)
    ensures Inv(Apply(s, Pickup(count)))
  {
    PickupConserves(s, count);
    SameHistory(s, Apply(s, Pickup(count)));
  }

  lemma ClaimStepKeepsInv(s: State, who: Who, b: Blob)
    requires Inv(s) && Enabled(s, Claim(who, b))
    ensures Inv(Apply(s, Claim(who, b)))
  {
    ClaimIsFresh(s, who, b);
    ClaimConserves(s, who, b);
    var t := Apply(s, Claim(who, b));
    assert t.added == s.added && t.used == s.used && t.pending == s.pending[b.globalId := b] by {
      match who case Me => case Others =>
    }
    OneMorePending(s, t, b);
  }

  lemma OneMorePending(s: State, t: State, b: Blob)
    requires Inv(s) && b.content.Message? && t.pending == s.pending[b.globalId := b]
    requires t.added == s.added && t.used == s.used
    ensures IdsUnique(t)
  {
  }

  lemma ClaimConserves(s: State, who: Who, b: Blob)
    requires Conserved(s) && Enabled(s, Claim(who, b)) && b.globalId !in s.pending && b !in Claimed(s.pending)
    ensures Conserved(Apply(s, Claim(who, b)))
  {
    PendingGrows(s.pending, b.globalId, b);
    match who case Me => case Others =>
  }

  lemma ReleaseStepKeepsInv(s: State, id: int, temporary: bool)
    requires Inv(s) && Enabled(s, Release(id, temporary))
    ensures Inv(Apply(s, Release(id, temporary)))
  {
    PendingShrinks(s.pending, id);
    var b := s.pending[id];
    assert b in s.added;
    if temporary { assert multiset([b] + s.queue) == multiset{b} + multiset(s.queue); }
  }

  lemma LoseConserves(s: State, who: Who, b: Blob)
    requires Conserved(s) && Enabled(s, Lose(who, b))
    ensures Conserved(Apply(s, Lose(who, b)))
  {
    match who case Me => case Others =>
  }

  lemma LoseKeepsInv(s: State, who: Who, b: Blob)
    requires Inv(s) && Enabled(s, Lose(who, b))
    ensures Inv(Apply(s, Lose(who, b)))
  {
    var t := Apply(s, Lose(who, b));
    LoseConserves(s, who, b);
    assert t.added == s.added && t.used == s.used && t.pending == s.pending by {
      match who case Me => case Others =>
    }
    SameHistory(s, t);
  }

  lemma ReleaseLostKeepsInv(s: State, id: int)
    requires Inv(s) && Enabled(s, ReleaseLost(id))
    ensures Inv(Apply(s, ReleaseLost(id)))
  {
    PendingShrinks(s.pending, id);
  }

  lemma StepKeepsInv(s: State, e: Event)
    requires Inv(s) && Enabled(s, e)
    ensures Inv(Apply(s, e))
  {
    match e
    case Claim(who, b) => ClaimStepKeepsInv(s, who, b);
    case Release(id, temporary) => ReleaseStepKeepsInv(s, id, temporary);
    case Add(b, indexed) => AddStepKeepsInv(s, b, indexed);
    case PushBack(who, b) => PushBackKeepsInv(s, who, b);
    case Pop(who, count) => PopStepKeepsInv(s, who, count);
    case Pickup(count) => PickupKeepsInv(s, count);
    case Lose(who, b) => LoseKeepsInv(s, who, b);
    case ReleaseLost(id) => ReleaseLostKeepsInv(s, id);
    case AddFailed(_) =>
  }

  lemma {:induction false} RunKeepsInv(s: State, events: seq<Event>, t: State)
    requires Inv(s) && Run(s, events, t)
    ensures Inv(t)
    decreases |events|
  {
    if events != [] {
      StepKeepsInv(s, events[0]);
      RunKeepsInv(Apply(s, events[0]), events[1..], t);
    }
  }

  predicate Loses(e: Event) {
    e.Lose? || e.ReleaseLost?
  }

  /** No push of an entry taken from the list has failed. */
  predicate EveryPushWorked(events: seq<Event>) {
    forall i :: 0 <= i < |events| ==> !Loses(events[i])
  }

  lemma {:induction false} LossesCount(s: State, events: seq<Event>, t: State)
    requires Run(s, events, t)
    ensures s.lost <= t.lost && (t.lost == s.lost <==> EveryPushWorked(events))
    decreases |events|
  {
    if events != [] {
      var next := Apply(s, events[0]);
      LossesCount(next, events[1..], t);
      if Loses(events[0]) {
        var b := if events[0].Lose? then events[0].b else s.pending[events[0].id];
        assert t.lost[b] >= next.lost[b] == s.lost[b] + 1;
      } else {
        assert forall i :: 0 < i < |events| ==> events[i] == events[1..][i - 1];
      }
      assert EveryPushWorked(events) ==> EveryPushWorked(events[1..]);
    }
  }

  /** A claim under a number that is already claimed overwrites that claim, and its entry is gone: a claim
      conserves the entries exactly when its number is free. The server's own numbers come from INCR; an
      outside client that pushes entries must not use one of those that are pending. */
  lemma ClaimConservesIff(s: State, who: Who, b: Blob)
    requires Conserved(s) && Enabled(s, Claim(who, b)) && forall id :: id in s.pending ==> s.pending[id].globalId == id
    ensures Conserved(Apply(s, Claim(who, b))) <==> b.globalId !in s.pending
  {
    if b.globalId in s.pending {
      var c, p := s.pending[b.globalId], s.pending[b.globalId := b];
      assert forall id :: id in s.pending && id != b.globalId ==> s.pending[id] != c && p[id] == s.pending[id];
      ClaimReplaced(s.pending, b);
      OneShort(s, who, b, c);
    } else {
      assert b !in Claimed(s.pending);
      ClaimConserves(s, who, b);
    }
  }

  lemma ClaimReplaced(p: map<int, Blob>, b: Blob)
    requires b.globalId in p && forall id :: id in p ==> p[id].globalId == id
    ensures Claimed(p[b.globalId := b]) == Claimed(p) - {p[b.globalId]} + {b}
    ensures b !in Claimed(p) - {p[b.globalId]} && p[b.globalId] in Claimed(p)
  {
    var q := p[b.globalId := b];
    assert q[b.globalId] == b;
    forall id | id in p && id != b.globalId ensures p[id] in Claimed(q) && p[id] != p[b.globalId] {
      assert q[id] == p[id];
    }
  }

  lemma OneShort(s: State, who: Who, b: Blob, c: Blob)
    requires Conserved(s) && Enabled(s, Claim(who, b)) && b.globalId in s.pending && c in Claimed(s.pending)
    requires Claimed(s.pending[b.globalId := b]) == Claimed(s.pending) - {c} + {b} && b !in Claimed(s.pending) - {c}
    ensures !Conserved(Apply(s, Claim(who, b)))
  {
    var t := Apply(s, Claim(who, b));
    var before, after := Claimed(s.pending), Claimed(t.pending);
    assert t.pending == s.pending[b.globalId := b] && t.added == s.added by { match who case Me => case Others => }
    assert multiset(after) == multiset(before) - multiset{c} + multiset{b};
    assert t.mine[c] + t.theirs[c] + multiset{b}[c] == s.mine[c] + s.theirs[c] by { match who case Me => case Others => }
    assert multiset(after)[c] + 1 == multiset(before)[c] + multiset{b}[c];
    SumAt(s, c);
    SumAt(t, c);
  }

  lemma SumAt(s: State, c: Blob)
    ensures Conserved(s) ==> s.added[c] == multiset(s.queue)[c] + s.mine[c] + s.theirs[c] + multiset(Claimed(s.pending))[c]
                                           + s.removed[c] + s.lost[c]
  {
  }

  /** Conservation over whole runs from an empty store, at the grain of single Redis commands; nothing is lost
      exactly when every push worked. */
  lemma NothingIsLostOrCopied(s: State, events: seq<Event>, t: State)
    requires Empty(s) && Run(s, events, t)
    ensures t.added == multiset(t.queue) + t.mine + t.theirs + multiset(Claimed(t.pending)) + t.removed + t.lost
    ensures t.lost == multiset{} <==> EveryPushWorked(events)
    ensures forall b: Blob :: b.content.Message? ==> t.added[b] <= 1
  {
    assert multiset(Claimed(s.pending)) == multiset{};
    RunKeepsInv(s, events, t);
    LossesCount(s, events, t);
    forall b: Blob | b.content.Message? ensures t.added[b] <= 1 {
      if b in t.added {}
    }
  }

  lemma ReleaseAfterClaim(s: State, who: Who, b: Blob)
    requires Enabled(s, Claim(who, b)) && b.globalId !in s.pending
    ensures var claimed := Apply(s, Claim(who, b));
            Enabled(claimed, Release(b.globalId, true)) &&
            Apply(claimed, Release(b.globalId, true)) == Apply(s, PushBack(who, b)).(index := Indexed(s.index, b))
  {
    var claimed := Apply(s, Claim(who, b));
    assert claimed.pending[b.globalId] == b && claimed.pending - {b.globalId} == s.pending;
    match who case Me => case Others =>
  }

  /** A temporary release undoes the claim: the entry is back at the head, everything else as before, and its
      service is in the poll index, where the server's own entries have it already. */
  lemma TemporaryReleaseUndoesClaim(s: State, who: Who, b: Blob)
    requires Inv(s) && Enabled(s, Claim(who, b))
    ensures var claimed := Apply(s, Claim(who, b));
            Enabled(claimed, Release(b.globalId, true)) &&
            Apply(claimed, Release(b.globalId, true)) == Apply(s, PushBack(who, b)).(index := Indexed(s.index, b))
  {
    ClaimIsFresh(s, who, b);
    ReleaseAfterClaim(s, who, b);
  }

  // ------------------------------------------------------------------ the poll index

  /** smpp_redis_merge_store_esmes drops the global service. */
  function EsmesWithQueued(s: State): set<string> {
    set svc | svc in s.index && Lower(svc) != GLOBAL_SERVICE
  }

  lemma LowerTwice(s: string)
    ensures Lower(Lower(s)) == Lower(s)
  {
  }

  lemma NormIsLower(service: string)
    ensures Lower(NormService(service)) == NormService(service)
  {
    LowerTwice(service);
    assert Lower(GLOBAL_SERVICE) == GLOBAL_SERVICE;
  }

  /** The step puts this service into the poll index. */
  ghost predicate Indexes(s: State, e: Event, service: string)
    requires Enabled(s, e)
  {
    match e
    case Add(b, indexed) => indexed && b.content.Message? && NormService(b.content.service) == service
    case Release(id, temporary) =>
      temporary && s.pending[id].content.Message? && NormService(s.pending[id].content.service) == service
    case _ => false
  }

  ghost predicate IndexedIn(s: State, events: seq<Event>, service: string)
    decreases |events|
  {
    events != [] && Enabled(s, events[0])
    && (Indexes(s, events[0], service) || IndexedIn(Apply(s, events[0]), events[1..], service))
  }

  lemma StepIndexes(s: State, e: Event, service: string)
    requires Enabled(s, e)
    ensures service in Apply(s, e).index <==> service in s.index || Indexes(s, e, service)
  {
    match e
    case Pop(who, _) => match who { case Me => case Others => }
    case Claim(who, _) => match who { case Me => case Others => }
    case PushBack(who, _) => match who { case Me => case Others => }
    case Lose(who, _) => match who { case Me => case Others => }
    case _ =>
  }

  lemma {:induction false} RunIndexes(s: State, events: seq<Event>, t: State, service: string)
    requires Run(s, events, t)
    ensures service in t.index <==> service in s.index || IndexedIn(s, events, service)
    ensures forall b :: Add(b, true) in events && b.content.Message? && NormService(b.content.service) == service ==>
              IndexedIn(s, events, service)
    decreases |events|
  {
    if events != [] {
      StepIndexes(s, events[0], service);
      RunIndexes(Apply(s, events[0]), events[1..], t, service);
      assert forall e :: e in events ==> e == events[0] || e in events[1..];
    }
  }

  /** After any run from an empty store, outside entries without their SADD included: a stored entry's service is
      returned by the poll exactly when it does not normalise to the reserved name, as the empty service does,
      and some step put it into the index. The server's own add always does. */
  lemma PollFindsEveryEntry(s: State, events: seq<Event>, t: State, b: Blob)
    requires Empty(s) && s.index == {} && Run(s, events, t) && b in t.queue && b.content.Message?
    ensures var service := NormService(b.content.service);
            && (service in EsmesWithQueued(t) <==> service != GLOBAL_SERVICE && IndexedIn(s, events, service))
            && (Add(b, true) in events ==> (service in EsmesWithQueued(t) <==> service != GLOBAL_SERVICE))
  {
    RunIndexes(s, events, t, NormService(b.content.service));
    NormIsLower(b.content.service);
  }

  /** The poll merges the indexes of the two message stores. */
  function MergedEsmes(primary: State, fallback: State): set<string> {
    EsmesWithQueued(primary) + EsmesWithQueued(fallback)
  }

  /** So an entry of either store is polled for exactly when its service was indexed in one of them, after any
      runs of both. */
  lemma MergedPollFindsEveryEntry(s: State, events: seq<Event>, t: State,
                                  s2: State, events2: seq<Event>, t2: State, b: Blob)
    requires Empty(s) && s.index == {} && Run(s, events, t) && Empty(s2) && s2.index == {} && Run(s2, events2, t2)
    requires (b in t.queue || b in t2.queue) && b.content.Message?
    ensures var service := NormService(b.content.service);
            && (service in MergedEsmes(t, t2) <==>
                  service != GLOBAL_SERVICE && (IndexedIn(s, events, service) || IndexedIn(s2, events2, service)))
            && (Add(b, true) in events + events2 ==> (service in MergedEsmes(t, t2) <==> service != GLOBAL_SERVICE))
  {
    RunIndexes(s, events, t, NormService(b.content.service));
    RunIndexes(s2, events2, t2, NormService(b.content.service));
    NormIsLower(b.content.service);
  }

  /** An account that is really called "_GLOBAL_" is never polled. */
  lemma ReservedNameIsNeverPolled(t: State)
    ensures NormService("_GLOBAL_") !in EsmesWithQueued(t)
  {
    assert NormService("_GLOBAL_") == Lower("_GLOBAL_") == GLOBAL_SERVICE;
    NormIsLower("_GLOBAL_");
  }
}
