/** The PDU lists kept in Redis and the set of system ids to poll. All of one table's keys share a prefix,
    so a list key can coincide with the key of the poll set or of the id counter. */
module RedisIndex {
  import opened Common
  import opened RedisStore

  const INDEX_KEY: string := "esmes"
  const ID_KEY: string := "id"

  /** An entry of a PDU list; only a JSON object can be turned back into a PDU. */
  datatype Entry = Entry(payload: nat, isObject: bool)

  datatype Value = Counter(n: int) | Items(l: seq<Entry>) | Members(ids: set<string>)

  type Keys = map<string, Value>

  // ------------------------------------------------------------------ the Redis commands

  predicate ListOrNone(s: Keys, key: string) {
    key in s ==> s[key].Items?
  }

  predicate SetOrNone(s: Keys, key: string) {
    key in s ==> s[key].Members?
  }

  predicate CounterOrNone(s: Keys, key: string) {
    key in s ==> s[key].Counter?
  }

  function ListAt(s: Keys, key: string): seq<Entry> {
    if key in s && s[key].Items? then s[key].l else []
  }

  function SetAt(s: Keys, key: string): set<string> {
    if key in s && s[key].Members? then s[key].ids else {}
  }

  /** Redis drops a key whose list or set becomes empty. */
  function WithList(s: Keys, key: string, l: seq<Entry>): Keys {
    if l == [] then s - {key} else s[key := Items(l)]
  }

  function WithSet(s: Keys, key: string, ids: set<string>): Keys {
    if ids == {} then s - {key} else s[key := Members(ids)]
  }

  /** Commands on a key of another type are errors and change nothing. */
  function Incr(s: Keys, key: string): Keys {
    if !CounterOrNone(s, key) then s
    else s[key := Counter(if key in s then s[key].n + 1 else 1)]
  }

  function Lpush(s: Keys, key: string, e: Entry): Keys {
    if ListOrNone(s, key) then WithList(s, key, [e] + ListAt(s, key)) else s
  }

  function Lpop(s: Keys, key: string, count: nat): Keys {
    if ListOrNone(s, key) then WithList(s, key, ListAt(s, key)[Min(count, |ListAt(s, key)|)..]) else s
  }

  function Sadd(s: Keys, key: string, id: string): Keys {
    if SetOrNone(s, key) then WithSet(s, key, SetAt(s, key) + {id}) else s
  }

  function Srem(s: Keys, key: string, id: string): Keys {
    if SetOrNone(s, key) then WithSet(s, key, SetAt(s, key) - {id}) else s
  }

  // ------------------------------------------------------------------ the two operations

  function Stored(s: Keys, sid: string): bool {
    ListOrNone(Incr(s, ID_KEY), NormService(sid))
  }

  function AddPdu(s: Keys, sid: string, e: Entry): Keys {
    var counted := Incr(s, ID_KEY);
    if Stored(s, sid) then Sadd(Lpush(counted, NormService(sid), e), INDEX_KEY, NormService(sid)) else counted
  }

  function Batch(limit: int): nat {
    if limit <= 0 then BATCH_LIMIT else limit
  }

  function Fetched(s: Keys, sid: string, limit: int): seq<Entry> {
    ListAt(s, NormService(sid))[..Min(Batch(limit), |ListAt(s, NormService(sid))|)]
  }

  function Usable(l: seq<Entry>): seq<Entry> {
    if l == [] then [] else (if l[0].isObject then [l[0]] else []) + Usable(l[1..])
  }

  function FetchPdus(s: Keys, sid: string, limit: int): Keys {
    var popped := Lpop(s, NormService(sid), Batch(limit));
    if Usable(Fetched(s, sid, limit)) == [] && ListOrNone(popped, NormService(sid)) && ListAt(popped, NormService(sid)) == []
    then Srem(popped, INDEX_KEY, NormService(sid))
    else popped
  }

  /** What get_esmes_with_queued takes from this table. */
  function Polled(s: Keys): set<string> {
    SetAt(s, INDEX_KEY)
  }

  // ------------------------------------------------------------------ the poll never misses a list

  /** The two reserved keys have their own types and every list is in the poll set. */
  ghost predicate Inv(s: Keys) {
    && SetOrNone(s, INDEX_KEY) && CounterOrNone(s, ID_KEY)
    && forall key :: key in s && key != INDEX_KEY && key != ID_KEY ==> s[key].Items? && key in Polled(s)
  }

  /** The first PDU ever stored is for a system id that normalises to the name of the poll set. */
  predicate TakesIndexKey(s: Keys, sid: string) {
    NormService(sid) == INDEX_KEY && INDEX_KEY !in s
  }

  /** Storing a PDU keeps the poll complete exactly when it does not turn the poll set into a list. */
  lemma AddKeepsInvIff(s: Keys, sid: string, e: Entry)
    requires Inv(s)
    ensures Inv(AddPdu(s, sid, e)) <==> !TakesIndexKey(s, sid)
  {
    var t := AddPdu(s, sid, e);
    var key := NormService(sid);
    assert INDEX_KEY != ID_KEY by { assert |INDEX_KEY| == 5 && |ID_KEY| == 2; }
    if key == INDEX_KEY {
      if INDEX_KEY !in s {
        assert t[INDEX_KEY] == Items([e]);
      }
    } else if key != ID_KEY {
      assert ListOrNone(Incr(s, ID_KEY), key);
      forall k | k in t && k != INDEX_KEY && k != ID_KEY ensures t[k].Items? && k in Polled(t) {
        if k != key { assert s[k].Items? && k in Polled(s); }
      }
    }
  }

  /** Fetching never takes a system id with PDUs left out of the poll. */
  lemma FetchKeepsInv(s: Keys, sid: string, limit: int)
    requires Inv(s)
    ensures Inv(FetchPdus(s, sid, limit))
  {
    var key := NormService(sid);
    var t := FetchPdus(s, sid, limit);
    forall k | k in t && k != INDEX_KEY && k != ID_KEY ensures t[k].Items? && k in Polled(t) {
      assert k in s;
    }
  }

  datatype PduEvent = Put(sid: string, e: Entry) | Fetch(sid: string, limit: int)

  function Apply(s: Keys, e: PduEvent): Keys {
    match e
    case Put(sid, x) => AddPdu(s, sid, x)
    case Fetch(sid, limit) => FetchPdus(s, sid, limit)
  }

  predicate Harmless(s: Keys, e: PduEvent) {
    e.Put? ==> !TakesIndexKey(s, e.sid)
  }

  function Run(s: Keys, events: seq<PduEvent>): Keys
    decreases |events|
  {
    if events == [] then s else Run(Apply(s, events[0]), events[1..])
  }

  predicate AllHarmless(s: Keys, events: seq<PduEvent>)
    decreases |events|
  {
    events == [] || (Harmless(s, events[0]) && AllHarmless(Apply(s, events[0]), events[1..]))
  }

  /** Over whole runs: as long as no add takes the key of the poll set, every system id with stored
      PDUs is polled. */
  lemma PollFindsEveryList(s: Keys, events: seq<PduEvent>, sid: string)
    requires Inv(s) && AllHarmless(s, events)
    requires ListAt(Run(s, events), NormService(sid)) != []
    ensures NormService(sid) in Polled(Run(s, events))
  {
    RunKeepsInv(s, events);
    InvIsComplete(Run(s, events));
  }

  /** While the poll set's key holds a list, adds store PDUs but nobody is polled. */
  lemma IndexTakenHidesEveryone(s: Keys, sid: string, e: Entry)
    requires INDEX_KEY in s && s[INDEX_KEY].Items? && CounterOrNone(s, ID_KEY)
    requires NormService(sid) != ID_KEY && ListOrNone(s, NormService(sid))
    ensures var t := AddPdu(s, sid, e);
            ListAt(t, NormService(sid)) == [e] + ListAt(s, NormService(sid))
            && t[INDEX_KEY].Items? && Polled(t) == {}
  {
    assert |INDEX_KEY| == 5 && |ID_KEY| == 2;
  }

  /** That happens: "esmes" stores first, "alice" second, and neither is polled. */
  lemma AccountNamedLikeTheIndex(first: Entry, second: Entry)
    ensures var t := Run(map[], [Put("esmes", first), Put("alice", second)]);
            ListAt(t, "alice") == [second] && Polled(t) == {}
  {
    assert Lower("esmes") == "esmes" && Lower("alice") == "alice";
    assert |INDEX_KEY| == 5 && |ID_KEY| == 2 && "alice"[0] != INDEX_KEY[0];
    var events := [Put("esmes", first), Put("alice", second)];
    var t1 := AddPdu(map[], "esmes", first);
    assert Lpush(Incr(map[], ID_KEY), INDEX_KEY, first)[INDEX_KEY] == Items([first]);
    assert t1[INDEX_KEY] == Items([first]);
    IndexTakenHidesEveryone(t1, "alice", second);
    assert Run(map[], events) == Run(t1, events[1..]) == Run(AddPdu(t1, "alice", second), events[1..][1..]);
  }

  // ------------------------------------------------------------------ between LLEN and SREM

  /** Every system id with stored PDUs is polled. */
  ghost predicate Complete(s: Keys) {
    forall sid :: ListAt(s, NormService(sid)) != [] ==> NormService(sid) in Polled(s)
  }

  lemma InvIsComplete(s: Keys)
    requires Inv(s)
    ensures Complete(s)
  {
  }

  lemma {:induction false} RunKeepsInv(s: Keys, events: seq<PduEvent>)
    requires Inv(s) && AllHarmless(s, events)
    ensures Inv(Run(s, events))
    decreases |events|
  {
    if events != [] {
      match events[0] {
        case Put(id, e) => AddKeepsInvIff(s, id, e);
        case Fetch(id, limit) => FetchKeepsInv(s, id, limit);
      }
      RunKeepsInv(Apply(s, events[0]), events[1..]);
    }
  }

  /** At the grain of single commands: a reader has found its list empty, other clients add and fetch, then it
      takes its system id out of the poll set. The poll stays complete exactly when the list is still empty. */
  lemma LateRemovalIff(s: Keys, sid: string, events: seq<PduEvent>)
    requires Inv(s) && ListAt(s, NormService(sid)) == [] && AllHarmless(s, events)
    ensures Complete(Srem(Run(s, events), INDEX_KEY, NormService(sid))) <==> ListAt(Run(s, events), NormService(sid)) == []
  {
    RunKeepsInv(s, events);
    var u, key := Run(s, events), NormService(sid);
    var t := Srem(u, INDEX_KEY, key);
    assert Polled(t) == Polled(u) - {key};
    InvIsComplete(u);
    if ListAt(u, key) == [] {
      forall x | ListAt(t, NormService(x)) != [] ensures NormService(x) in Polled(t) {
        assert ListAt(u, NormService(x)) != [];
      }
    } else {
      assert ListAt(t, key) == ListAt(u, key);
    }
  }

  /** With adds only, that is when none of them was for this list. */
  lemma LatePushIff(s: Keys, sid: string, puts: seq<PduEvent>)
    requires Inv(s) && ListAt(s, NormService(sid)) == [] && AllHarmless(s, puts)
    requires NormService(sid) != INDEX_KEY && NormService(sid) != ID_KEY && forall i :: 0 <= i < |puts| ==> puts[i].Put?
    ensures Complete(Srem(Run(s, puts), INDEX_KEY, NormService(sid))) <==>
            forall i :: 0 <= i < |puts| ==> NormService(puts[i].sid) != NormService(sid)
  {
    LateRemovalIff(s, sid, puts);
    PutsLengthen(s, NormService(sid), puts);
  }

  function PutsFor(puts: seq<PduEvent>, key: string): nat {
    if puts == [] then 0
    else (if puts[0].Put? && NormService(puts[0].sid) == key then 1 else 0) + PutsFor(puts[1..], key)
  }

  lemma {:induction false} NoPutsIff(puts: seq<PduEvent>, key: string)
    requires forall i :: 0 <= i < |puts| ==> puts[i].Put?
    ensures PutsFor(puts, key) == 0 <==> forall i :: 0 <= i < |puts| ==> NormService(puts[i].sid) != key
  {
    if puts != [] {
      NoPutsIff(puts[1..], key);
      assert forall i :: 0 < i < |puts| ==> puts[i] == puts[1..][i - 1];
      if PutsFor(puts[1..], key) == 0 {
        assert forall i :: 0 < i < |puts| ==> NormService(puts[i].sid) != key;
      } else {
        var i :| 0 <= i < |puts[1..]| && NormService(puts[1..][i].sid) == key;
        assert puts[i + 1] == puts[1..][i];
      }
    }
  }

  /** Each add for a list makes it longer by one. */
  lemma {:induction false} PutsLengthen(s: Keys, key: string, puts: seq<PduEvent>)
    requires Inv(s) && AllHarmless(s, puts) && key != INDEX_KEY && key != ID_KEY
    requires forall i :: 0 <= i < |puts| ==> puts[i].Put?
    ensures |ListAt(Run(s, puts), key)| == |ListAt(s, key)| + PutsFor(puts, key)
    ensures PutsFor(puts, key) == 0 <==> forall i :: 0 <= i < |puts| ==> NormService(puts[i].sid) != key
    decreases |puts|
  {
    NoPutsIff(puts, key);
    if puts != [] {
      AddKeepsInvIff(s, puts[0].sid, puts[0].e);
      OnePut(s, key, puts[0].sid, puts[0].e);
      PutsLengthen(Apply(s, puts[0]), key, puts[1..]);
    }
  }

  lemma OnePut(s: Keys, key: string, sid: string, e: Entry)
    requires Inv(s) && !TakesIndexKey(s, sid) && key != INDEX_KEY && key != ID_KEY
    ensures ListAt(AddPdu(s, sid, e), key) == (if NormService(sid) == key then [e] else []) + ListAt(s, key)
  {
    assert key in s ==> s[key].Items?;
  }

  /** The smallest case: one push in between is stored and not polled. */
  lemma RaceHidesAPush(sid: string, e: Entry)
    requires NormService(sid) != INDEX_KEY && NormService(sid) != ID_KEY
    ensures var s: Keys := map[INDEX_KEY := Members({NormService(sid)})];
            ListAt(s, NormService(sid)) == [] &&
            var t := Srem(AddPdu(s, sid, e), INDEX_KEY, NormService(sid));
            ListAt(t, NormService(sid)) == [e] && NormService(sid) !in Polled(t)
  {
  }

  // ------------------------------------------------------------------ what was put is what is fetched

  /** The entries that the key holds, none if it holds something else. */
  function EntriesOf(s: Keys, key: string): seq<Entry> {
    match if key in s then s[key] else Items([])
    case Items(l) => l
    case Counter(_) => []
    case Members(_) => []
  }

  lemma PopCutsTheList(s: Keys, key: string, count: nat, l: seq<Entry>, n: nat)
    requires l == EntriesOf(s, key) && n == Min(count, |l|)
    ensures var t := Lpop(s, key, count);
            && EntriesOf(t, key) == l[n..]
            && (forall k :: k != key ==> EntriesOf(t, k) == EntriesOf(s, k))
  {
    assert l == ListAt(s, key);
  }

  lemma SremKeepsLists(s: Keys, key: string, id: string, k: string)
    ensures EntriesOf(Srem(s, key, id), k) == EntriesOf(s, k)
  {
  }

  lemma Joined(l: seq<Entry>, n: nat)
    requires n <= |l|
    ensures l[..n] + l[n..] == l && |l[..n]| == n
  {
  }

  lemma FetchedIsTheTop(s: Keys, sid: string, limit: int, l: seq<Entry>)
    requires l == EntriesOf(s, NormService(sid))
    ensures var n := Min(if limit <= 0 then 1000 else limit, |l|); Fetched(s, sid, limit) == l[..n] && n <= |l|
  {
    assert l == ListAt(s, NormService(sid));
  }

  lemma FetchLeavesTheRest(s: Keys, sid: string, limit: int, l: seq<Entry>)
    requires l == EntriesOf(s, NormService(sid))
    ensures var key, n, t := NormService(sid), Min(if limit <= 0 then 1000 else limit, |l|), FetchPdus(s, sid, limit);
            EntriesOf(t, key) == l[n..] && forall k :: k != key ==> EntriesOf(t, k) == EntriesOf(s, k)
  {
    var key, popped := NormService(sid), Lpop(s, NormService(sid), Batch(limit));
    PopCutsTheList(s, key, Batch(limit), l, Min(Batch(limit), |l|));
    forall k { SremKeepsLists(popped, INDEX_KEY, key, k); }
    assert FetchPdus(s, sid, limit) == popped || FetchPdus(s, sid, limit) == Srem(popped, INDEX_KEY, key);
  }

  lemma OtherTypesGiveNothing(s: Keys, sid: string, limit: int)
    requires NormService(sid) in s && !s[NormService(sid)].Items?
    ensures FetchPdus(s, sid, limit) == s && Fetched(s, sid, limit) == []
  {
    assert ListAt(s, NormService(sid)) == [];
  }

  /** A fetch cuts the list in two: what it takes are the first entries, as many as were asked for or all there
      are, and what stays are the others. No other list changes, and a key of another type gives nothing. */
  lemma FetchCutsTheList(s: Keys, sid: string, limit: int)
    ensures var key, t := NormService(sid), FetchPdus(s, sid, limit);
            && Fetched(s, sid, limit) + EntriesOf(t, key) == EntriesOf(s, key)
            && |Fetched(s, sid, limit)| == Min(if limit <= 0 then 1000 else limit, |EntriesOf(s, key)|)
            && (forall k :: k != key ==> EntriesOf(t, k) == EntriesOf(s, k))
            && (key in s && !s[key].Items? ==> t == s && Fetched(s, sid, limit) == [])
  {
    var l := EntriesOf(s, NormService(sid));
    FetchedIsTheTop(s, sid, limit, l);
    FetchLeavesTheRest(s, sid, limit, l);
    if NormService(sid) in s && !s[NormService(sid)].Items? { OtherTypesGiveNothing(s, sid, limit); }
    Joined(l, Min(if limit <= 0 then 1000 else limit, |l|));
  }

  lemma PopKeepsSets(s: Keys, key: string, count: nat, k: string)
    requires SetOrNone(s, k)
    ensures SetAt(Lpop(s, key, count), k) == SetAt(s, k) && SetOrNone(Lpop(s, key, count), k)
    ensures ListOrNone(Lpop(s, key, count), key) <==> ListOrNone(s, key)
  {
    if key == k {
      if key !in s {
        assert Lpop(s, key, count) == WithList(s, key, []);
      }
    } else {
      assert k in Lpop(s, key, count) <==> k in s;
    }
  }

  lemma SremTakesOne(s: Keys, key: string, id: string)
    requires SetOrNone(s, key)
    ensures SetAt(Srem(s, key, id), key) == SetAt(s, key) - {id}
  {
  }

  /** A fetch takes its system id out of the poll exactly if it popped nothing usable and found the list empty
      afterwards; nobody else's is touched. */
  lemma FetchUnpollsIff(s: Keys, sid: string, limit: int)
    requires SetOrNone(s, INDEX_KEY)
    ensures var key, batch, t := NormService(sid), Fetched(s, sid, limit), FetchPdus(s, sid, limit);
            Polled(t) == if (forall e :: e in batch ==> !e.isObject) && EntriesOf(t, key) == [] && (key in s ==> s[key].Items?)
                         then Polled(s) - {key} else Polled(s)
  {
    var key := NormService(sid);
    var popped := Lpop(s, key, Batch(limit));
    UsableIffObject(Fetched(s, sid, limit));
    PopKeepsSets(s, key, Batch(limit), INDEX_KEY);
    SremTakesOne(popped, INDEX_KEY, key);
    SremKeepsLists(popped, INDEX_KEY, key, key);
    assert ListOrNone(s, key) ==> EntriesOf(popped, key) == ListAt(popped, key);
  }

  lemma {:induction false} UsableIffObject(l: seq<Entry>)
    ensures Usable(l) != [] <==> exists e :: e in l && e.isObject
  {
    if l != [] {
      UsableIffObject(l[1..]);
      assert forall e :: e in l <==> e == l[0] || e in l[1..];
    }
  }

  /** A PDU that could be stored is the first entry of its list, and no other list changes. It could be exactly if
      the key had no value of another type. */
  lemma AddPutsInFront(s: Keys, sid: string, e: Entry)
    requires NormService(sid) != ID_KEY
    ensures var key, t := NormService(sid), AddPdu(s, sid, e);
            && (Stored(s, sid) <==> (key in s ==> s[key].Items?))
            && EntriesOf(t, key) == (if Stored(s, sid) then [e] else []) + EntriesOf(s, key)
            && (forall k :: k != key ==> EntriesOf(t, k) == EntriesOf(s, k))
  {
    var key, counted := NormService(sid), Incr(s, ID_KEY);
    assert EntriesOf(counted, key) == ListAt(counted, key) == EntriesOf(s, key);
    assert forall k :: EntriesOf(counted, k) == EntriesOf(s, k);
    if Stored(s, sid) {
      var pushed := Lpush(counted, key, e);
      assert EntriesOf(pushed, key) == [e] + EntriesOf(s, key);
      assert forall k :: EntriesOf(Sadd(pushed, INDEX_KEY, key), k) == EntriesOf(pushed, k);
    }
  }

  /** A stack of the entries of one account: put on top, fetched from the top. `out` is what was fetched so far. */
  datatype Stack = Stack(top: seq<Entry>, out: seq<Entry>)

  function StackStep(st: Stack, key: string, e: PduEvent): Stack {
    match e
    case Put(sid, x) => if NormService(sid) == key then st.(top := [x] + st.top) else st
    case Fetch(sid, limit) =>
      if NormService(sid) != key then st
      else
        var n := Min(if limit <= 0 then 1000 else limit, |st.top|);
        Stack(st.top[n..], st.out + st.top[..n])
  }

  function StackRun(st: Stack, key: string, events: seq<PduEvent>): Stack
    decreases |events|
  {
    if events == [] then st else StackRun(StackStep(st, key, events[0]), key, events[1..])
  }

  /** What this step returns for the key. */
  function FetchedBy(s: Keys, key: string, e: PduEvent): seq<Entry> {
    if e.Fetch? && NormService(e.sid) == key then Fetched(s, e.sid, e.limit) else []
  }

  /** What the fetches of a run return for this key, in order. */
  function FetchedIn(s: Keys, key: string, events: seq<PduEvent>): seq<Entry>
    decreases |events|
  {
    if events == [] then [] else FetchedBy(s, key, events[0]) + FetchedIn(Apply(s, events[0]), key, events[1..])
  }

  function PutBy(key: string, e: PduEvent): multiset<Entry> {
    if e.Put? && NormService(e.sid) == key then multiset{e.e} else multiset{}
  }

  /** What the adds of a run put under this key. */
  function PutIn(key: string, events: seq<PduEvent>): multiset<Entry>
    decreases |events|
  {
    if events == [] then multiset{} else PutBy(key, events[0]) + PutIn(key, events[1..])
  }

  lemma PutIsPush(s: Keys, key: string, sid: string, x: Entry, out: seq<Entry>)
    requires key != INDEX_KEY && key != ID_KEY && ListOrNone(s, key)
    ensures StackStep(Stack(EntriesOf(s, key), out), key, Put(sid, x)) == Stack(EntriesOf(AddPdu(s, sid, x), key), out)
  {
    if NormService(sid) != ID_KEY {
      AddPutsInFront(s, sid, x);
      assert [] + EntriesOf(s, key) == EntriesOf(s, key);
    }
  }

  lemma StackPop(l: seq<Entry>, out: seq<Entry>, sid: string, limit: int, batch: seq<Entry>, rest: seq<Entry>)
    requires batch + rest == l && |batch| == Min(if limit <= 0 then 1000 else limit, |l|)
    ensures StackStep(Stack(l, out), NormService(sid), Fetch(sid, limit)) == Stack(rest, out + batch)
  {
    assert l[..|batch|] == batch && l[|batch|..] == rest;
  }

  lemma FetchIsPop(s: Keys, key: string, sid: string, limit: int, out: seq<Entry>)
    ensures StackStep(Stack(EntriesOf(s, key), out), key, Fetch(sid, limit))
         == Stack(EntriesOf(FetchPdus(s, sid, limit), key), out + FetchedBy(s, key, Fetch(sid, limit)))
  {
    FetchCutsTheList(s, sid, limit);
    if NormService(sid) == key {
      StackPop(EntriesOf(s, key), out, sid, limit, Fetched(s, sid, limit), EntriesOf(FetchPdus(s, sid, limit), key));
    } else {
      assert out + [] == out;
    }
  }

  lemma StaysAList(s: Keys, key: string, e: PduEvent)
    requires key != INDEX_KEY && key != ID_KEY && ListOrNone(s, key)
    ensures ListOrNone(Apply(s, e), key)
  {
  }

  lemma StepIsStackStep(s: Keys, key: string, e: PduEvent, out: seq<Entry>)
    requires key != INDEX_KEY && key != ID_KEY && ListOrNone(s, key)
    ensures StackStep(Stack(EntriesOf(s, key), out), key, e) == Stack(EntriesOf(Apply(s, e), key), out + FetchedBy(s, key, e))
  {
    match e
    case Put(sid, x) =>
      PutIsPush(s, key, sid, x, out);
      assert out + FetchedBy(s, key, e) == out;
    case Fetch(sid, limit) => FetchIsPop(s, key, sid, limit, out);
  }

  lemma {:induction false} RunIsStackRun(s: Keys, key: string, events: seq<PduEvent>, out: seq<Entry>)
    requires key != INDEX_KEY && key != ID_KEY && ListOrNone(s, key)
    ensures StackRun(Stack(EntriesOf(s, key), out), key, events)
         == Stack(EntriesOf(Run(s, events), key), out + FetchedIn(s, key, events))
    decreases |events|
  {
    if events == [] {
      assert out + [] == out;
    } else {
      StepIsStackStep(s, key, events[0], out);
      StaysAList(s, key, events[0]);
      RunIsStackRun(Apply(s, events[0]), key, events[1..], out + FetchedBy(s, key, events[0]));
      Assoc(out, FetchedBy(s, key, events[0]), FetchedIn(Apply(s, events[0]), key, events[1..]));
    }
  }

  lemma Assoc(a: seq<Entry>, b: seq<Entry>, c: seq<Entry>)
    ensures a + b + c == a + (b + c)
  {
  }

  function Contents(st: Stack): multiset<Entry> {
    multiset(st.top) + multiset(st.out)
  }

  lemma PushedContents(top: seq<Entry>, out: seq<Entry>, x: Entry)
    ensures multiset([x] + top) + multiset(out) == multiset(top) + multiset(out) + multiset{x}
  {
    assert multiset([x] + top) == multiset{x} + multiset(top);
  }

  lemma PoppedContents(top: seq<Entry>, out: seq<Entry>, n: nat)
    requires n <= |top|
    ensures multiset(top[n..]) + multiset(out + top[..n]) == multiset(top) + multiset(out)
  {
    assert top == top[..n] + top[n..];
    assert multiset(top) == multiset(top[..n]) + multiset(top[n..]);
  }

  lemma StackStepConserves(st: Stack, key: string, e: PduEvent)
    ensures Contents(StackStep(st, key, e)) == Contents(st) + PutBy(key, e)
  {
    if NormService(e.sid) != key {
      assert StackStep(st, key, e) == st && PutBy(key, e) == multiset{};
    } else if e.Put? {
      PushedContents(st.top, st.out, e.e);
    } else {
      PoppedContents(st.top, st.out, Min(if e.limit <= 0 then 1000 else e.limit, |st.top|));
    }
  }

  lemma {:induction false} StackConserves(st: Stack, key: string, events: seq<PduEvent>)
    ensures Contents(StackRun(st, key, events)) == Contents(st) + PutIn(key, events)
    decreases |events|
  {
    if events != [] {
      StackStepConserves(st, key, events[0]);
      StackConserves(StackStep(st, key, events[0]), key, events[1..]);
    }
  }

  /** Over every run of adds and fetches for any accounts: the list of an ordinary key is a stack. What is fetched
      comes off its top in order, the last one put first; and the entries put are those in the list and those
      fetched, each once. */
  lemma ListIsAStack(s: Keys, key: string, events: seq<PduEvent>)
    requires key != INDEX_KEY && key != ID_KEY && ListOrNone(s, key)
    ensures StackRun(Stack(EntriesOf(s, key), []), key, events)
         == Stack(EntriesOf(Run(s, events), key), FetchedIn(s, key, events))
    ensures multiset(EntriesOf(s, key)) + PutIn(key, events)
         == multiset(EntriesOf(Run(s, events), key)) + multiset(FetchedIn(s, key, events))
  {
    RunIsStackRun(s, key, events, []);
    assert [] + FetchedIn(s, key, events) == FetchedIn(s, key, events);
    StackConserves(Stack(EntriesOf(s, key), []), key, events);
  }

  // ------------------------------------------------------------------ the server's side

  /** Only objects are usable, alone or in a list, where they keep their order. */
  lemma {:induction false} UsableKeepsOrder(l: seq<Entry>, m: seq<Entry>, e: Entry)
    ensures Usable([e]) == if e.isObject then [e] else []
    ensures Usable(l + m) == Usable(l) + Usable(m)
    decreases |l|
  {
    assert [e] + [] == [e] && [e][1..] == [];
    if l == [] {
      assert l + m == m;
    } else {
      UsableKeepsOrder(l[1..], m, e);
      assert (l + m)[1..] == l[1..] + m;
    }
  }

  lemma {:induction false} UsableSnoc(l: seq<Entry>, e: Entry)
    ensures Usable(l + [e]) == Usable(l) + (if e.isObject then [e] else [])
  {
    if l != [] {
      UsableSnoc(l[1..], e);
      assert (l + [e])[1..] == l[1..] + [e];
    }
  }

  class PduTable {
    var keys: Keys

    constructor ()
      ensures keys == map[]
    {
      keys := map[];
    }

    method AddQueuedPdu(sid: string, e: Entry) returns (res: bool)
      modifies this
      ensures res <==> Stored(old(keys), sid)
      ensures keys == AddPdu(old(keys), sid, e)
      ensures var key := NormService(sid);
              key != "id" ==>
                && (res <==> key in old(keys) ==> old(keys)[key].Items?)
                && EntriesOf(keys, key) == (if res then [e] else []) + EntriesOf(old(keys), key)
                && (forall k :: k != key ==> EntriesOf(keys, k) == EntriesOf(old(keys), k))
                && (CounterOrNone(old(keys), "id") ==>
                      "id" in keys && keys["id"] == Counter(if "id" in old(keys) then old(keys)["id"].n + 1 else 1))
                && (res && SetOrNone(old(keys), "esmes") && key != "esmes" ==> Polled(keys) == Polled(old(keys)) + {key})
    {
      if NormService(sid) != ID_KEY { AddPutsInFront(keys, sid, e); }
      keys := Incr(keys, ID_KEY);
      res := ListOrNone(keys, NormService(sid));
      keys := Lpush(keys, NormService(sid), e);
      if res {
        keys := Sadd(keys, INDEX_KEY, NormService(sid));
      }
    }

    method LpopBatch(sid: string, limit: int) returns (items: seq<Entry>)
      modifies this
      ensures items == Fetched(old(keys), sid, limit)
      ensures keys == Lpop(old(keys), NormService(sid), Batch(limit))
    {
      items := Fetched(keys, sid, limit);
      keys := Lpop(keys, NormService(sid), Batch(limit));
    }

    /** `batch` is what was popped; entries that are not objects are dropped. */
    method GetStoredPdu(sid: string, limit: int) returns (messages: seq<Entry>, ghost batch: seq<Entry>)
      modifies this
      ensures batch == Fetched(old(keys), sid, limit) && messages == Usable(batch)
      ensures keys == FetchPdus(old(keys), sid, limit)
      ensures var key := NormService(sid);
              && batch + EntriesOf(keys, key) == EntriesOf(old(keys), key)
              && |batch| == Min(if limit <= 0 then 1000 else limit, |EntriesOf(old(keys), key)|)
              && (forall k :: k != key ==> EntriesOf(keys, k) == EntriesOf(old(keys), k))
              && (key in old(keys) && !old(keys)[key].Items? ==> keys == old(keys) && messages == [])
    {
      FetchCutsTheList(keys, sid, limit);
      var rawItems := LpopBatch(sid, limit);
      batch := rawItems;
      messages := [];
      var i := 0;
      while i < |rawItems|
        invariant 0 <= i <= |rawItems|
        invariant messages == Usable(rawItems[..i])
        modifies {}
      {
        assert rawItems[..i + 1] == rawItems[..i] + [rawItems[i]];
        UsableSnoc(rawItems[..i], rawItems[i]);
        if rawItems[i].isObject {
          messages := messages + [rawItems[i]];
        }
        i := i + 1;
      }
      assert rawItems[..i] == rawItems;
      if |messages| == 0 && ListOrNone(keys, NormService(sid)) && ListAt(keys, NormService(sid)) == [] {
        keys := Srem(keys, INDEX_KEY, NormService(sid));
      }
    }
  }
}
