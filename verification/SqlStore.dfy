/** The SQL message store: two tables that number their rows independently and one dictionary
    of claims keyed by the row number alone. */
module SqlStore {
  import opened Common

  type Id = nat
  type Uuid = nat
  type Key = (string, Id)

  const BATCH_LIMIT: nat := 1000

  datatype StoreKind = PrimaryKind | BearerboxQueueKind | BearerboxMtDrainKind | AutoKind

  /** The configuration that selects table names; an unset queue table is the empty string. */
  datatype Tables = Tables(storeTable: string, queueTable: string, storePrimary: bool)
  {
    function TableName(kind: StoreKind): string {
      if kind == BearerboxQueueKind && queueTable != "" then queueTable else storeTable
    }

    function StoredTableName(smsType: SmsType): string {
      if smsType == MtPush && !storePrimary then TableName(BearerboxQueueKind) else TableName(PrimaryKind)
    }

    /** The table a fetch reads, with the drain kind resolved first. */
    function FetchTable(kind: StoreKind, smsType: SmsType): string {
      var effective := if kind == BearerboxMtDrainKind
                       then (if storePrimary then BearerboxQueueKind else AutoKind) else kind;
      if effective == AutoKind then StoredTableName(smsType) else TableName(effective)
    }
  }

  /** What the bearerbox parks is what its requeue thread drains, in every configuration, and an MO
      parked by the receiving side is read back from the table it was written to. */
  lemma DrainReadsWhatParkWrites(t: Tables)
    ensures t.FetchTable(BearerboxMtDrainKind, MtPush) == t.TableName(BearerboxQueueKind)
    ensures t.FetchTable(AutoKind, Mo) == t.FetchTable(AutoKind, ReportMo) == t.TableName(PrimaryKind) == t.storeTable
    ensures t.queueTable != "" ==> t.TableName(BearerboxQueueKind) == t.queueTable
    ensures t.queueTable == "" ==> t.TableName(BearerboxQueueKind) == t.storeTable
  {
    if t.storePrimary {
      assert t.FetchTable(BearerboxMtDrainKind, MtPush) == t.TableName(BearerboxQueueKind);
    }
  }

  /** A fetch without a table of its own reads MT from the queue table exactly if MT is only queued, the store is
      not primary for it, and a queue table is set. */
  lemma AutoReadsQueueTableIff(t: Tables, smsType: SmsType)
    requires t.queueTable != t.storeTable
    ensures t.FetchTable(AutoKind, smsType) == t.queueTable <==> smsType == MtPush && !t.storePrimary && t.queueTable != ""
    ensures t.FetchTable(AutoKind, smsType) == t.queueTable || t.FetchTable(AutoKind, smsType) == t.storeTable
  {
    assert t.StoredTableName(smsType) == t.FetchTable(AutoKind, smsType);
  }

  datatype Row = Row(smsType: SmsType, service: string, uuid: Uuid)

  /** `primary` is the database-store-table; `pendingMsg` and `pendingStore` are the two claim
      dictionaries. Two fields are history: `claims` are the claims handed out and not yet released, `used` the
      numbers each table has given to rows, which it never gives again. */
  datatype Store = Store(primary: string, rows: map<Key, Row>, pendingMsg: map<Id, Row>,
                         pendingStore: map<Id, string>, claims: set<Key>, used: set<Key>)

  ghost predicate Valid(s: Store) {
    && s.pendingMsg.Keys == s.pendingStore.Keys
    && (forall k :: k in s.claims <==> k.1 in s.pendingStore && s.pendingStore[k.1] == k.0)
    && (forall k :: k in s.claims ==> k in s.rows && s.pendingMsg[k.1] == s.rows[k])
    && s.rows.Keys <= s.used
  }

  predicate Wanted(r: Row, smsType: SmsType, service: string) {
    r.smsType == smsType && (service == "" || r.service == service)
  }

  /** A legal answer to the SELECT of get_stored: distinct unclaimed rows that match. The limit
      argument plays no part, the statement always asks for the batch limit. */
  ghost predicate Selectable(s: Store, table: string, smsType: SmsType, service: string, ids: seq<Id>) {
    && |ids| <= BATCH_LIMIT
    && (forall i, j :: 0 <= i < j < |ids| ==> ids[i] != ids[j])
    && (forall i :: 0 <= i < |ids| ==>
          (table, ids[i]) in s.rows && Wanted(s.rows[(table, ids[i])], smsType, service)
          && ids[i] !in s.pendingMsg)
  }

  function Insert(s: Store, table: string, id: Id, row: Row): Store
  {
    s.(rows := s.rows[(table, id) := row], used := s.used + {(table, id)})
  }

  function ClaimOne(s: Store, table: string, id: Id): Store
    requires (table, id) in s.rows
  {
    s.(pendingMsg := s.pendingMsg[id := s.rows[(table, id)]],
       pendingStore := s.pendingStore[id := table],
       claims := s.claims + {(table, id)})
  }

  function ClaimFirst(s: Store, table: string, ids: seq<Id>, n: nat): (r: Store)
    requires n <= |ids| && forall id :: id in ids ==> (table, id) in s.rows
    ensures r.rows == s.rows && r.primary == s.primary && r.used == s.used
  {
    if n == 0 then s else ClaimOne(ClaimFirst(s, table, ids, n - 1), table, ids[n - 1])
  }

  function ClaimAll(s: Store, table: string, ids: seq<Id>): Store
    requires forall id :: id in ids ==> (table, id) in s.rows
  {
    ClaimFirst(s, table, ids, |ids|)
  }

  /** The table a final remove deletes from: the recorded one, or the primary table when the id is
      not claimed at all. */
  function RemoveTarget(s: Store, id: Id): Key {
    (if id in s.pendingStore then s.pendingStore[id] else s.primary, id)
  }

  function Remove(s: Store, id: Id, temporary: bool): Store {
    s.(rows := if temporary then s.rows else s.rows - {RemoveTarget(s, id)},
       pendingMsg := s.pendingMsg - {id},
       pendingStore := s.pendingStore - {id},
       claims := if id in s.pendingStore then s.claims - {(s.pendingStore[id], id)} else s.claims)
  }

  // ------------------------------------------------------------------ whole runs

  datatype Event =
    | Add(table: string, id: Id, row: Row)
    | Fetch(from: string, smsType: SmsType, service: string, ids: seq<Id>)
    | Release(claim: Key, temporary: bool)
    | Rerelease(claim: Key)

  /** `Rerelease` is the final release of a claim whose row a final release has already deleted: the parts of
      one MO or report share its number, and the callback of each of them releases it. */
  ghost predicate Enabled(s: Store, e: Event) {
    match e
    case Add(table, id, _) => (table, id) !in s.used
    case Fetch(from, smsType, service, ids) => Selectable(s, from, smsType, service, ids)
    case Release(claim, _) => claim in s.claims
    case Rerelease(claim) => claim in s.used && claim !in s.rows
  }

  ghost function Apply(s: Store, e: Event): Store
    requires Enabled(s, e)
  {
    match e
    case Add(table, id, row) => Insert(s, table, id, row)
    case Fetch(from, _, _, ids) => ClaimAll(s, from, ids)
    case Release(claim, temporary) => Remove(s, claim.1, temporary)
    case Rerelease(claim) => Remove(s, claim.1, false)
  }

  ghost predicate Run(s: Store, events: seq<Event>, t: Store)
    decreases |events|
  {
    if events == [] then s == t
    else Enabled(s, events[0]) && Run(Apply(s, events[0]), events[1..], t)
  }

  lemma NextIsUnclaimed(s: Store, r: Store, table: string, ids: seq<Id>, n: nat)
    requires Valid(s) && Valid(r) && n < |ids|
    requires forall i, j :: 0 <= i < j < |ids| ==> ids[i] != ids[j]
    requires forall id :: id in ids ==> id !in s.pendingMsg
    requires forall k :: k in r.claims <==> k in s.claims || (k.0 == table && k.1 in ids[..n])
    ensures ids[n] !in r.pendingStore
  {
    forall i | i in r.pendingStore ensures i in s.pendingMsg || i in ids[..n] {
      assert (r.pendingStore[i], i) in r.claims;
    }
    assert ids[n] in ids && ids[n] !in ids[..n];
  }

  lemma {:induction false} ClaimFirstKeepsValid(s: Store, table: string, ids: seq<Id>, n: nat)
    requires Valid(s) && n <= |ids|
    requires forall i, j :: 0 <= i < j < |ids| ==> ids[i] != ids[j]
    requires forall id :: id in ids ==> (table, id) in s.rows && id !in s.pendingMsg
    ensures var r := ClaimFirst(s, table, ids, n);
            && Valid(r)
            && (forall k :: k in r.claims <==> k in s.claims || (k.0 == table && k.1 in ids[..n]))
    decreases n
  {
    if n > 0 {
      var r, id := ClaimFirst(s, table, ids, n - 1), ids[n - 1];
      ClaimFirstKeepsValid(s, table, ids, n - 1);
      NextIsUnclaimed(s, r, table, ids, n - 1);
      assert id in ids;
      ClaimOneKeepsValid(r, table, id);
      OneMoreTaken(ids, n);
    }
  }

  lemma OneMoreTaken(ids: seq<Id>, n: nat)
    requires 0 < n <= |ids|
    ensures forall id :: id in ids[..n] <==> id in ids[..n - 1] || id == ids[n - 1]
  {
    assert ids[..n] == ids[..n - 1] + [ids[n - 1]];
  }

  lemma ClaimOneKeepsValid(s: Store, table: string, id: Id)
    requires Valid(s) && (table, id) in s.rows && id !in s.pendingStore
    ensures Valid(ClaimOne(s, table, id)) && ClaimOne(s, table, id).claims == s.claims + {(table, id)}
  {
  }

  /** The claims after a batch are the old ones and exactly the fetched rows. */
  lemma ClaimAllKeepsValid(s: Store, table: string, ids: seq<Id>)
    requires Valid(s)
    requires forall i, j :: 0 <= i < j < |ids| ==> ids[i] != ids[j]
    requires forall id :: id in ids ==> (table, id) in s.rows && id !in s.pendingMsg
    ensures var r := ClaimAll(s, table, ids);
            && Valid(r)
            && (forall k :: k in r.claims <==> k in s.claims || (k.0 == table && k.1 in ids))
  {
    ClaimFirstKeepsValid(s, table, ids, |ids|);
    assert ids[..|ids|] == ids;
  }

  /** One release of a live claim: finally removed, exactly its row leaves the table it came from;
      temporarily released, every row stays. Either way exactly that claim ends. */
  lemma ReleaseIsExact(s: Store, claim: Key, temporary: bool)
    requires Valid(s) && claim in s.claims
    ensures var r := Remove(s, claim.1, temporary);
            && Valid(r)
            && r.rows == (if temporary then s.rows else s.rows - {claim})
            && claim in s.rows
            && r.claims == s.claims - {claim}
  {
    assert RemoveTarget(s, claim.1) == claim;
  }

  /** Whatever number is removed, the claims that are left are sound. */
  lemma RemoveKeepsValid(s: Store, id: Id, temporary: bool)
    requires Valid(s)
    ensures Valid(Remove(s, id, temporary))
  {
  }

  lemma StepKeepsValid(s: Store, e: Event)
    requires Valid(s) && Enabled(s, e)
    ensures Valid(Apply(s, e))
  {
    match e
    case Add(_, _, _) =>
    case Fetch(from, _, _, ids) => ClaimAllKeepsValid(s, from, ids);
    case Release(claim, temporary) => ReleaseIsExact(s, claim, temporary);
    case Rerelease(claim) => RemoveKeepsValid(s, claim.1, false);
  }

  /** After any run of inserts, fetches that do not overlap, and releases, first ones and repeated ones, the two
      dictionaries have the same keys, and live claims of different tables never share an id. */
  lemma {:induction false} ClaimsStayExclusive(s: Store, events: seq<Event>, t: Store)
    requires Valid(s) && Run(s, events, t)
    ensures Valid(t)
    ensures t.pendingMsg.Keys == t.pendingStore.Keys
    ensures forall k, l :: k in t.claims && l in t.claims && k.1 == l.1 ==> k == l
    decreases |events|
  {
    if events != [] {
      StepKeepsValid(s, events[0]);
      ClaimsStayExclusive(Apply(s, events[0]), events[1..], t);
    }
  }

  /** Exactly when a final remove of an arbitrary id destroys a row nobody claimed: the id is not
      claimed and the primary table happens to use the same number. */
  lemma FinalRemoveHitsUnclaimedRowIff(s: Store, id: Id)
    requires Valid(s)
    ensures (exists k :: k in s.rows && k !in s.claims && k !in Remove(s, id, false).rows)
        <==> (id !in s.pendingStore && (s.primary, id) in s.rows)
  {
    if id !in s.pendingStore && (s.primary, id) in s.rows {
      var k := (s.primary, id);
      assert k in s.rows && k !in s.claims && k !in Remove(s, id, false).rows;
    }
  }

  /** A release of a claim that is over changes no row and no claim exactly when its number is not claimed
      again and the primary table has no row of that number. */
  lemma StaleReleaseIsHarmlessIff(s: Store, claim: Key)
    requires Valid(s) && claim !in s.claims
    ensures var r := Remove(s, claim.1, false);
            (r.rows == s.rows && r.claims == s.claims)
            <==> claim.1 !in s.pendingStore && (s.primary, claim.1) !in s.rows
  {
    var r := Remove(s, claim.1, false);
    if claim.1 in s.pendingStore {
      assert RemoveTarget(s, claim.1) in s.claims && RemoveTarget(s, claim.1) !in r.claims;
    } else if (s.primary, claim.1) in s.rows {
      assert (s.primary, claim.1) !in r.rows;
    } else {
      assert r.rows == s.rows;
    }
  }

  /** The row it deletes otherwise: the one that is claimed under the number now, by whomever, or else the
      primary table's. A claim of the primary table, as all of MO and reports are, leaves only the first. */
  lemma StaleReleaseHitsIff(s: Store, claim: Key, k: Key)
    requires Valid(s) && Enabled(s, Rerelease(claim))
    ensures k in s.rows && k !in Apply(s, Rerelease(claim)).rows <==>
            k.1 == claim.1 && (k in s.claims || (claim.1 !in s.pendingStore && k.0 == s.primary && k in s.rows))
    ensures claim.0 == s.primary ==>
            (k in s.rows && k !in Apply(s, Rerelease(claim)).rows <==> k.1 == claim.1 && k in s.claims)
  {
  }

  lemma RunCons(s: Store, e: Event, rest: seq<Event>, t: Store)
    requires Enabled(s, e) && Run(Apply(s, e), rest, t)
    ensures Run(s, [e] + rest, t)
  {
    assert ([e] + rest)[1..] == rest;
  }

  /** How the second release of a two-part MO deletes a row that somebody else has claimed: the queue table has
      a row of the same number, and the first release lets the requeue thread claim it. */
  lemma SecondReleaseDeletesAnotherRow(primary: string, queue: string, n: Id, mo: Row, mt: Row)
    returns (s: Store, events: seq<Event>, t: Store)
    requires primary != queue && mo.smsType == Mo && mt.smsType == MtPush
    ensures Valid(s) && s.primary == primary && s.rows == map[] && s.claims == {} && s.used == {} && Run(s, events, t)
    ensures (queue, n) in t.claims && (queue, n) in t.rows && Enabled(t, Rerelease((primary, n)))
    ensures var u := Apply(t, Rerelease((primary, n))); (queue, n) !in u.rows && (queue, n) !in u.claims
  {
    s := Store(primary, map[], map[], map[], {}, {});
    var p, q := (primary, n), (queue, n);
    var s1 := Apply(s, Add(primary, n, mo));
    var s2 := Apply(s1, Add(queue, n, mt));
    ClaimsOne(s2, primary, n);
    var s3 := Apply(s2, Fetch(primary, Mo, "", [n]));
    var s4 := Apply(s3, Release(p, false));
    assert s4.rows == map[q := mt] && s4.pendingMsg == map[] && s4.pendingStore == map[] && s4.claims == {};
    ClaimsOne(s4, queue, n);
    t := Apply(s4, Fetch(queue, MtPush, "", [n]));
    RunCons(s4, Fetch(queue, MtPush, "", [n]), [], t);
    RunCons(s3, Release(p, false), [Fetch(queue, MtPush, "", [n])] + [], t);
    events := [Release(p, false)] + ([Fetch(queue, MtPush, "", [n])] + []);
    RunCons(s2, Fetch(primary, Mo, "", [n]), events, t);
    events := [Fetch(primary, Mo, "", [n])] + events;
    RunCons(s1, Add(queue, n, mt), events, t);
    events := [Add(queue, n, mt)] + events;
    RunCons(s, Add(primary, n, mo), events, t);
    events := [Add(primary, n, mo)] + events;
  }

  lemma ClaimsOne(s: Store, table: string, n: Id)
    requires (table, n) in s.rows
    ensures ClaimAll(s, table, [n]) == ClaimOne(s, table, n)
  {
    assert ClaimFirst(s, table, [n], 1) == ClaimOne(ClaimFirst(s, table, [n], 0), table, n);
  }

  // ------------------------------------------------------------------ the object

  class SqlDatabase {
    const tables: Tables
    var rows: map<Key, Row>
    var pendingMsg: map<Id, Row>
    var pendingStore: map<Id, string>
    ghost var claims: set<Key>
    ghost var used: set<Key>

    ghost function View(): Store
      reads this
    {
      Store(tables.storeTable, rows, pendingMsg, pendingStore, claims, used)
    }

    constructor (tables: Tables)
      ensures this.tables == tables && Valid(View()) && rows == map[] && claims == {} && used == {}
    {
      this.tables := tables;
      rows, pendingMsg, pendingStore, claims, used := map[], map[], map[], {}, {};
    }

    /** `id` is the number the database assigns; `ok` is whether the INSERT succeeded. */
    method AddMessage(row: Row, kind: StoreKind, id: Id, ok: bool) returns (res: bool)
      requires (tables.TableName(kind), id) !in used
      modifies this
      ensures res == ok
      ensures View() == if ok then Insert(old(View()), tables.TableName(kind), id, row) else old(View())
      ensures var table := if kind == BearerboxQueueKind && |tables.queueTable| > 0 then tables.queueTable else tables.storeTable;
              && rows == (if ok then old(rows)[(table, id) := row] else old(rows))
              && pendingMsg == old(pendingMsg) && pendingStore == old(pendingStore)
    {
      if ok {
        rows := rows[(tables.TableName(kind), id) := row];
        used := used + {(tables.TableName(kind), id)};
      }
      res := ok;
    }

    /** Notes a fetched row and the table it came from in the two dictionaries. */
    method ClaimRow(table: string, id: Id) returns (row: Row)
      requires (table, id) in rows
      modifies this`pendingMsg, this`pendingStore, this`claims
      ensures row == rows[(table, id)] && View() == ClaimOne(old(View()), table, id)
      ensures pendingMsg == old(pendingMsg)[id := row] && pendingStore == old(pendingStore)[id := table]
    {
      row := rows[(table, id)];
      pendingMsg := pendingMsg[id := row];
      pendingStore := pendingStore[id := table];
      claims := claims + {(table, id)};
    }

    /** `selected` is the database's answer to the SELECT. */
    method GetStored(smsType: SmsType, service: string, kind: StoreKind, selected: seq<Id>)
      returns (table: string, messages: seq<(Id, Row)>)
      requires Valid(View())
      requires Selectable(View(), tables.FetchTable(kind, smsType), smsType, service, selected)
      modifies this
      ensures table == tables.FetchTable(kind, smsType)
      ensures Valid(View()) && View() == ClaimAll(old(View()), table, selected)
      ensures |messages| == |selected|
      ensures forall i :: 0 <= i < |selected| ==>
                (table, selected[i]) in claims && messages[i] == (selected[i], old(rows)[(table, selected[i])])
      ensures forall i :: 0 <= i < |selected| ==>
                && messages[i].1.smsType == smsType && (|service| > 0 ==> messages[i].1.service == service)
                && selected[i] in pendingMsg && pendingMsg[selected[i]] == messages[i].1
                && selected[i] in pendingStore && pendingStore[selected[i]] == table
                && selected[i] !in old(pendingMsg)
      ensures kind == AutoKind && smsType != MtPush ==> table == tables.storeTable
      ensures kind == BearerboxMtDrainKind && smsType == MtPush ==>
                table == (if |tables.queueTable| > 0 then tables.queueTable else tables.storeTable)
      ensures rows == old(rows) && |messages| <= 1000
    {
      table := tables.FetchTable(kind, smsType);
      messages := [];
      var i := 0;
      ghost var before := View();
      while i < |selected|
        invariant 0 <= i <= |selected| && |messages| == i
        invariant rows == before.rows
        invariant View() == ClaimFirst(before, table, selected, i)
        invariant forall j :: 0 <= j < i ==> messages[j] == (selected[j], before.rows[(table, selected[j])])
      {
        var id := selected[i];
        assert id in selected;
        var row := ClaimRow(table, id);
        messages := messages + [(id, row)];
        i := i + 1;
      }
      ClaimAllKeepsValid(before, table, selected);
      forall k | 0 <= k < |selected| ensures (table, selected[k]) in claims {
        assert selected[k] in selected;
      }
    }

    /** `deleteOk` is whether the DELETE succeeded: if it did not, a final remove drops the claim and keeps
        the row, as a temporary one does, and for a claimed row it even reports success. */
    method RemoveMessage(id: Id, temporary: bool, deleteOk: bool) returns (res: bool)
      modifies this
      ensures View() == Remove(old(View()), id, temporary || !deleteOk)
      ensures res == ((!temporary && deleteOk) || id in old(pendingMsg))
      ensures pendingMsg == old(pendingMsg) - {id} && pendingStore == old(pendingStore) - {id}
      ensures rows == if temporary || !deleteOk then old(rows)
                      else old(rows) - {(if id in old(pendingStore) then old(pendingStore)[id] else tables.storeTable, id)}
    {
      res := false;
      ghost var before := View();
      if !temporary {
        var table := if id in pendingStore then pendingStore[id] else tables.storeTable;
        if deleteOk {
          rows := rows - {(table, id)};
          res := true;
        }
      }
      if id in pendingMsg {
        res := true;
      }
      pendingMsg := pendingMsg - {id};
      claims := if id in pendingStore then claims - {(pendingStore[id], id)} else claims;
      pendingStore := pendingStore - {id};
    }
  }
}
