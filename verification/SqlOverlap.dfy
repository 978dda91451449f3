/** Fetches of the SQL store that overlap: a fetch is a SELECT and then one pair of dictionary entries for each
    row, and other threads may do anything in between. */
module SqlOverlap {
  import opened Common
  import opened SqlStore

  // ------------------------------------------------------------------ exactly when they interfere

  /** The entries that overlapping fetches make, in whatever order they come. */
  function PutAll(s: Store, puts: seq<Key>): Store
    requires forall k :: k in puts ==> k in s.rows
    decreases |puts|
  {
    if puts == [] then s
    else
      var before := PutAll(s, puts[..|puts| - 1]);
      var k := puts[|puts| - 1];
      before.(pendingMsg := before.pendingMsg[k.1 := s.rows[k]], pendingStore := before.pendingStore[k.1 := k.0],
              claims := before.claims + {k})
  }

  predicate NumberIn(puts: seq<Key>, n: Id) {
    exists i :: 0 <= i < |puts| && puts[i].1 == n
  }

  lemma {:induction false} WhatIsPut(s: Store, puts: seq<Key>)
    requires forall k :: k in puts ==> k in s.rows
    ensures var r := PutAll(s, puts);
            && r.rows == s.rows && r.primary == s.primary && r.used == s.used
            && (forall k :: k in r.claims <==> k in s.claims || k in puts)
            && (forall n :: n in r.pendingStore <==> n in s.pendingStore || NumberIn(puts, n))
            && (forall n :: n in r.pendingMsg <==> n in s.pendingMsg || NumberIn(puts, n))
            && (forall n :: NumberIn(puts, n) ==>
                  (r.pendingStore[n], n) in puts && r.pendingMsg[n] == s.rows[(r.pendingStore[n], n)])
            && (forall n :: n in s.pendingStore && !NumberIn(puts, n) ==> r.pendingStore[n] == s.pendingStore[n])
            && (forall n :: n in s.pendingMsg && !NumberIn(puts, n) ==> r.pendingMsg[n] == s.pendingMsg[n])
    decreases |puts|
  {
    if puts != [] {
      var front, k := puts[..|puts| - 1], puts[|puts| - 1];
      WhatIsPut(s, front);
      LastPut(puts);
    }
  }

  lemma LastPut(puts: seq<Key>)
    requires puts != []
    ensures var front, k := puts[..|puts| - 1], puts[|puts| - 1];
            && (forall l :: l in puts <==> l in front || l == k)
            && (forall n :: NumberIn(puts, n) <==> NumberIn(front, n) || n == k.1)
  {
    var front, k := puts[..|puts| - 1], puts[|puts| - 1];
    assert puts == front + [k];
    forall n | NumberIn(puts, n) ensures NumberIn(front, n) || n == k.1 {
      var i :| 0 <= i < |puts| && puts[i].1 == n;
      assert i < |front| ==> front[i].1 == n;
    }
    forall n | NumberIn(front, n) ensures NumberIn(puts, n) {
      var i :| 0 <= i < |front| && front[i].1 == n;
      assert puts[i].1 == n;
    }
    assert puts[|puts| - 1].1 == k.1;
  }

  /** No number was selected in two tables. */
  predicate NoNumberTwice(puts: seq<Key>) {
    forall k, l :: k in puts && l in puts && k.1 == l.1 ==> k == l
  }

  lemma PutNumbers(puts: seq<Key>)
    ensures forall k :: k in puts ==> NumberIn(puts, k.1)
  {
    forall k | k in puts ensures NumberIn(puts, k.1) {
      var i :| 0 <= i < |puts| && puts[i] == k;
    }
  }

  /** Rows selected while unclaimed, by any number of fetches, and entered in any order: a release of each of
      them would delete that row and no other, and the claims are exclusive, exactly when no number was
      selected in two tables. */
  lemma OverlappingFetchesIff(s: Store, puts: seq<Key>)
    requires Valid(s) && forall k :: k in puts ==> k in s.rows && k.1 !in s.pendingStore
    ensures (forall k :: k in puts ==> RemoveTarget(PutAll(s, puts), k.1) == k) <==> NoNumberTwice(puts)
    ensures Valid(PutAll(s, puts)) <==> NoNumberTwice(puts)
  {
    var r := PutAll(s, puts);
    WhatIsPut(s, puts);
    PutNumbers(puts);
    if NoNumberTwice(puts) {
      ExclusiveIfDistinct(s, puts);
    } else {
      var k, l :| k in puts && l in puts && k.1 == l.1 && k != l;
      assert k in r.claims && l in r.claims;
      assert RemoveTarget(r, k.1) == RemoveTarget(r, l.1);
    }
  }

  lemma ExclusiveIfDistinct(s: Store, puts: seq<Key>)
    requires Valid(s) && NoNumberTwice(puts) && forall k :: k in puts ==> k in s.rows && k.1 !in s.pendingStore
    ensures Valid(PutAll(s, puts)) && forall k :: k in puts ==> RemoveTarget(PutAll(s, puts), k.1) == k
  {
    var r := PutAll(s, puts);
    WhatIsPut(s, puts);
    PutNumbers(puts);
    forall k | k in puts ensures r.pendingStore[k.1] == k.0 {
      assert (r.pendingStore[k.1], k.1) in puts;
    }
    forall k | k in s.claims ensures !NumberIn(puts, k.1) {
      assert k.1 in s.pendingStore;
    }
  }

  /** One fetch by itself selects no number twice, and fetches of different types from one table do not. */
  lemma SelectedApart(s: Store, table: string, a: SmsType, b: SmsType, service: string, other: string, ids: seq<Id>, jds: seq<Id>)
    requires a != b && Selectable(s, table, a, service, ids) && Selectable(s, table, b, other, jds)
    ensures forall i, j :: 0 <= i < |ids| && 0 <= j < |jds| ==> ids[i] != jds[j]
  {
  }

  // ------------------------------------------------------------------ whole runs

  /** `picked` is what each thread has selected and not yet entered, with the row as the SELECT returned it. */
  datatype State = State(store: Store, picked: map<nat, seq<(Key, Row)>>)

  datatype Event =
    | Use(e: SqlStore.Event)
    | Select(t: nat, from: string, smsType: SmsType, service: string, ids: seq<Id>)
    | Put(t: nat)

  ghost predicate Enabled(s: State, e: Event) {
    match e
    case Use(u) => !u.Fetch? && SqlStore.Enabled(s.store, u)
    case Select(t, from, smsType, service, ids) => t !in s.picked && Selectable(s.store, from, smsType, service, ids)
    case Put(t) => t in s.picked && s.picked[t] != []
  }

  function Picks(rows: map<Key, Row>, from: string, ids: seq<Id>): (r: seq<(Key, Row)>)
    requires forall i :: 0 <= i < |ids| ==> (from, ids[i]) in rows
    ensures |r| == |ids| && forall i :: 0 <= i < |r| ==> r[i] == ((from, ids[i]), rows[(from, ids[i])])
  {
    if ids == [] then [] else [((from, ids[0]), rows[(from, ids[0])])] + Picks(rows, from, ids[1..])
  }

  ghost function Apply(s: State, e: Event): State
    requires Enabled(s, e)
  {
    match e
    case Use(u) => s.(store := SqlStore.Apply(s.store, u))
    case Select(t, from, _, _, ids) => s.(picked := s.picked[t := Picks(s.store.rows, from, ids)])
    case Put(t) =>
      var (k, row) := s.picked[t][0];
      State(s.store.(pendingMsg := s.store.pendingMsg[k.1 := row], pendingStore := s.store.pendingStore[k.1 := k.0],
                     claims := s.store.claims + {k}),
            s.picked[t := s.picked[t][1..]])
  }

  ghost predicate Run(s: State, events: seq<Event>, t: State)
    decreases |events|
  {
    if events == [] then s == t
    else Enabled(s, events[0]) && Run(Apply(s, events[0]), events[1..], t)
  }

  ghost predicate Picked(s: State, k: Key) {
    exists t, i :: t in s.picked && 0 <= i < |s.picked[t]| && s.picked[t][i].0 == k
  }

  /** A SELECT takes no number that another thread is about to enter, and a repeated release deletes no row
      that one is about to enter. */
  ghost predicate Apart(s: State, e: Event) {
    match e
    case Select(_, _, _, _, ids) => forall k :: Picked(s, k) ==> k.1 !in ids
    case Use(u) => u.Rerelease? ==> !Picked(s, RemoveTarget(s.store, u.claim.1))
    case Put(_) => true
  }

  ghost predicate ApartRun(s: State, events: seq<Event>, t: State)
    decreases |events|
  {
    if events == [] then s == t
    else Enabled(s, events[0]) && Apart(s, events[0]) && ApartRun(Apply(s, events[0]), events[1..], t)
  }

  /** What is about to be entered is still there, is unclaimed, and is about to be entered once. */
  ghost predicate Inv(s: State) {
    && Valid(s.store)
    && (forall t, i :: t in s.picked && 0 <= i < |s.picked[t]| ==>
          var (k, row) := s.picked[t][i]; k in s.store.rows && s.store.rows[k] == row && k.1 !in s.store.pendingStore)
    && (forall t, i, u, j | t in s.picked && 0 <= i < |s.picked[t]| && u in s.picked && 0 <= j < |s.picked[u]| ::
          s.picked[t][i].0.1 == s.picked[u][j].0.1 ==> t == u && i == j)
  }

  lemma UseKeepsInv(s: State, u: SqlStore.Event)
    requires Inv(s) && Enabled(s, Use(u)) && Apart(s, Use(u))
    ensures Inv(Apply(s, Use(u)))
  {
    SqlStore.StepKeepsValid(s.store, u);
    var r := SqlStore.Apply(s.store, u);
    forall t, i | t in s.picked && 0 <= i < |s.picked[t]|
      ensures var (k, row) := s.picked[t][i]; k in r.rows && r.rows[k] == row && k.1 !in r.pendingStore
    {
      var (k, row) := s.picked[t][i];
      assert Picked(s, k);
      if u.Release? { assert u.claim.1 in s.store.pendingStore; }
    }
  }

  lemma SelectKeepsInv(s: State, e: Event)
    requires Inv(s) && e.Select? && Enabled(s, e) && Apart(s, e)
    ensures Inv(Apply(s, e))
  {
    var n := Apply(s, e);
    forall t, i | t in s.picked && 0 <= i < |s.picked[t]| ensures s.picked[t][i].0.1 !in e.ids {
      assert Picked(s, s.picked[t][i].0);
    }
    assert forall i :: 0 <= i < |n.picked[e.t]| ==> n.picked[e.t][i].0.1 == e.ids[i] && e.ids[i] in e.ids;
  }

  lemma PutKeepsInv(s: State, t: nat)
    requires Inv(s) && Enabled(s, Put(t))
    ensures Inv(Apply(s, Put(t)))
  {
    var n := Apply(s, Put(t));
    var (k, row) := s.picked[t][0];
    assert forall i :: 0 <= i < |n.picked[t]| ==> n.picked[t][i] == s.picked[t][i + 1];
    forall u, i | u in n.picked && 0 <= i < |n.picked[u]| ensures n.picked[u][i].0.1 != k.1 {
      if u == t { assert n.picked[t][i] == s.picked[t][i + 1]; }
    }
  }

  lemma {:induction false} RunKeepsInv(s: State, events: seq<Event>, t: State)
    requires Inv(s) && ApartRun(s, events, t)
    ensures Inv(t)
    decreases |events|
  {
    if events != [] {
      match events[0] {
        case Use(u) => UseKeepsInv(s, u);
        case Select(_, _, _, _, _) => SelectKeepsInv(s, events[0]);
        case Put(p) => PutKeepsInv(s, p);
      }
      RunKeepsInv(Apply(s, events[0]), events[1..], t);
    }
  }

  /** Over every run in which no number is selected while another thread is about to enter it, an entry finds
      its number unclaimed and its row still there, and the claims stay exclusive. */
  lemma OverlappingFetchesStayExclusive(s: State, events: seq<Event>, t: State)
    requires Valid(s.store) && s.picked == map[] && ApartRun(s, events, t)
    ensures Valid(t.store) && forall k, l :: k in t.store.claims && l in t.store.claims && k.1 == l.1 ==> k == l
    ensures forall p :: Enabled(t, Put(p)) ==>
              var (k, row) := t.picked[p][0];
              k.1 !in t.store.pendingStore && k in t.store.rows && t.store.rows[k] == row
  {
    RunKeepsInv(s, events, t);
  }
}
