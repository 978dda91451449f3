/** The reader of the Redis store: a nested loop of pops and push-backs, its closed form and its bound
    on the number of pops. */
module RedisReader {
  import opened Common
  import opened RedisStore
  import opened RedisRequest

  function Matching(l: seq<Blob>, smsType: SmsType, filter: string): seq<Blob> {
    if l == [] then []
    else (if Matches(l[0], smsType, filter) then [l[0]] else []) + Matching(l[1..], smsType, filter)
  }

  function NonMatching(l: seq<Blob>, smsType: SmsType, filter: string): seq<Blob> {
    if l == [] then []
    else (if Matches(l[0], smsType, filter) then [] else [l[0]]) + NonMatching(l[1..], smsType, filter)
  }

  function Rev(l: seq<Blob>): seq<Blob> {
    if l == [] then [] else Rev(l[1..]) + [l[0]]
  }

  /** `n` reversals. */
  function Flip(n: nat, l: seq<Blob>): seq<Blob> {
    if n % 2 == 0 then l else Rev(l)
  }

  lemma {:induction false} RevSnoc(l: seq<Blob>, x: Blob)
    ensures Rev(l + [x]) == [x] + Rev(l)
  {
    if l == [] {
    } else {
      RevSnoc(l[1..], x);
      assert (l + [x])[1..] == l[1..] + [x];
    }
  }

  lemma {:induction false} RevTwice(l: seq<Blob>)
    ensures Rev(Rev(l)) == l && |Rev(l)| == |l|
  {
    if l != [] {
      RevTwice(l[1..]);
      RevSnoc(Rev(l[1..]), l[0]);
    }
  }

  lemma FlipNext(n: nat, l: seq<Blob>)
    ensures Rev(Flip(n, l)) == Flip(n + 1, l) && |Flip(n, l)| == |l|
  {
    RevTwice(l);
  }

  lemma {:induction false} SplitSizes(l: seq<Blob>, smsType: SmsType, filter: string)
    ensures |Matching(l, smsType, filter)| + |NonMatching(l, smsType, filter)| == |l|
    ensures forall b :: b in Matching(l, smsType, filter) ==> Matches(b, smsType, filter)
    ensures forall b :: b in NonMatching(l, smsType, filter) ==> !Matches(b, smsType, filter)
    ensures Matching(l, smsType, filter) == [] ==> NonMatching(l, smsType, filter) == l
  {
    if l != [] {
      SplitSizes(l[1..], smsType, filter);
    }
  }

  lemma {:induction false} NoneMatch(l: seq<Blob>, smsType: SmsType, filter: string)
    requires forall b :: b in l ==> !Matches(b, smsType, filter)
    ensures Matching(l, smsType, filter) == [] && NonMatching(l, smsType, filter) == l
  {
    if l != [] {
      NoneMatch(l[1..], smsType, filter);
    }
  }

  lemma {:induction false} RevMembers(l: seq<Blob>)
    ensures forall b :: b in Rev(l) <==> b in l
  {
    if l != [] {
      RevMembers(l[1..]);
    }
  }

  lemma Assoc(a: seq<Blob>, b: seq<Blob>, c: seq<Blob>)
    ensures a + b + c == a + (b + c)
  {
  }

  lemma HeadClaimed(rest: seq<Blob>, claimed: seq<Blob>, smsType: SmsType, filter: string)
    requires rest != []
    ensures multiset(rest) == multiset{rest[0]} + multiset(rest[1..])
    ensures var more := if Matches(rest[0], smsType, filter) then claimed + [rest[0]] else claimed;
            claimed + Matching(rest, smsType, filter) == more + Matching(rest[1..], smsType, filter)
  {
    assert rest == [rest[0]] + rest[1..];
    var tail := Matching(rest[1..], smsType, filter);
    if Matches(rest[0], smsType, filter) {
      assert Matching(rest, smsType, filter) == [rest[0]] + tail;
      Assoc(claimed, [rest[0]], tail);
    } else {
      assert Matching(rest, smsType, filter) == [] + tail == tail;
    }
  }

  lemma HeadPushedBack(rest: seq<Blob>, queue: seq<Blob>, smsType: SmsType, filter: string)
    requires rest != []
    ensures var back := if Matches(rest[0], smsType, filter) then [] else [rest[0]];
            Rev(NonMatching(rest, smsType, filter)) + queue
              == Rev(NonMatching(rest[1..], smsType, filter)) + (back + queue)
  {
    var tail := NonMatching(rest[1..], smsType, filter);
    if Matches(rest[0], smsType, filter) {
      assert NonMatching(rest, smsType, filter) == [] + tail == tail;
      assert [] + queue == queue;
    } else {
      assert NonMatching(rest, smsType, filter) == [rest[0]] + tail;
      RevCons(rest[0], tail);
      Assoc(Rev(tail), [rest[0]], queue);
    }
  }

  lemma RevCons(x: Blob, l: seq<Blob>)
    ensures Rev([x] + l) == Rev(l) + [x]
  {
    assert ([x] + l)[1..] == l;
  }

  /** `limit` 0 asks for the default batch. */
  function Effective(limit: int): int {
    if limit == 0 then BATCH_LIMIT else limit
  }

  /** The list a reader with exclusive access leaves behind: itself if nothing matched, else the entries
      it declined, reversed, before those it never saw. */
  function Leaves(l: seq<Blob>, max: int, smsType: SmsType, filter: string): seq<Blob> {
    if max < 0 then l
    else
      var n := Min(max, |l|);
      var rest := NonMatching(l[..n], smsType, filter);
      if |rest| == n then l else Rev(rest) + l[n..]
  }

  /** What it claims, in order. */
  function Claims(l: seq<Blob>, max: int, smsType: SmsType, filter: string): seq<Blob> {
    if max < 0 then [] else Matching(l[..Min(max, |l|)], smsType, filter)
  }

  /** Both results are made of the same entries as the list they came from. */
  lemma ClosedFormConserves(l: seq<Blob>, max: int, smsType: SmsType, filter: string)
    ensures multiset(Claims(l, max, smsType, filter)) + multiset(Leaves(l, max, smsType, filter)) == multiset(l)
  {
    if max >= 0 {
      var n := Min(max, |l|);
      assert l == l[..n] + l[n..];
      SplitBag(l[..n], smsType, filter);
      SplitSizes(l[..n], smsType, filter);
      RevBag(NonMatching(l[..n], smsType, filter));
    }
  }

  lemma WhatIsMatched(l: seq<Blob>, smsType: SmsType, filter: string, b: Blob)
    ensures multiset(Matching(l, smsType, filter))[b] == if AskedFor(b, smsType, filter) then multiset(l)[b] else 0
    ensures multiset(NonMatching(l, smsType, filter))[b] == if AskedFor(b, smsType, filter) then 0 else multiset(l)[b]
  {
    SplitBag(l, smsType, filter);
    SplitSizes(l, smsType, filter);
    MatchesIff(b, smsType, filter);
    assert multiset(l)[b] == multiset(Matching(l, smsType, filter))[b] + multiset(NonMatching(l, smsType, filter))[b];
  }

  /** How many of the first entries of a list a read looks at. */
  function Seen(l: seq<Blob>, limit: int): nat {
    if limit < 0 then 0 else if limit == 0 then Min(1000, |l|) else Min(limit, |l|)
  }

  /** What the closed form takes and leaves, entry by entry: of the first entries, as many as the request wants, all
      that are asked for are taken; behind them nothing is; and what is not asked for stays. */
  ghost predicate TakesWhatIsAskedFor(l: seq<Blob>, limit: int, smsType: SmsType, filter: string,
                                      messages: seq<Blob>, queue: seq<Blob>)
  {
    var n := Seen(l, limit);
    && (forall b :: b in messages ==> AskedFor(b, smsType, filter))
    && (forall b :: AskedFor(b, smsType, filter) ==>
          multiset(messages)[b] == multiset(l[..n])[b] && multiset(queue)[b] == multiset(l[n..])[b])
    && (forall b :: !AskedFor(b, smsType, filter) ==> multiset(queue)[b] == multiset(l)[b])
  }

  lemma ClosedFormTakes(l: seq<Blob>, limit: int, smsType: SmsType, filter: string)
    ensures TakesWhatIsAskedFor(l, limit, smsType, filter, Claims(l, Effective(limit), smsType, filter),
                                Leaves(l, Effective(limit), smsType, filter))
  {
    var n := Seen(l, limit);
    assert l == l[..n] + l[n..];
    forall b {
      ClosedFormAt(l, limit, smsType, filter, b);
    }
    assert forall b :: b in Claims(l, Effective(limit), smsType, filter) ==>
             multiset(Claims(l, Effective(limit), smsType, filter))[b] > 0;
  }

  lemma ClosedFormAt(l: seq<Blob>, limit: int, smsType: SmsType, filter: string, b: Blob)
    ensures var n, asked := Seen(l, limit), AskedFor(b, smsType, filter);
            && multiset(Claims(l, Effective(limit), smsType, filter))[b] == (if asked then multiset(l[..n])[b] else 0)
            && multiset(Leaves(l, Effective(limit), smsType, filter))[b] == (if asked then multiset(l[n..])[b] else multiset(l)[b])
  {
    var n := Seen(l, limit);
    assert l == l[..n] + l[n..];
    if limit >= 0 {
      WhatIsMatched(l[..n], smsType, filter, b);
    }
    ClosedFormConserves(l, Effective(limit), smsType, filter);
    BagAt(Claims(l, Effective(limit), smsType, filter), Leaves(l, Effective(limit), smsType, filter), l, b);
  }

  lemma AskedForIsMatching(smsType: SmsType, filter: string)
    ensures forall b :: Matches(b, smsType, filter) ==> AskedFor(b, smsType, filter)
  {
    forall b | Matches(b, smsType, filter) ensures AskedFor(b, smsType, filter) {
      MatchesIff(b, smsType, filter);
    }
  }

  lemma BagAt(x: seq<Blob>, y: seq<Blob>, l: seq<Blob>, b: Blob)
    requires multiset(x) + multiset(y) == multiset(l)
    ensures multiset(x)[b] + multiset(y)[b] == multiset(l)[b]
  {
  }

  datatype Outcome = Outcome(messages: seq<Blob>, queue: seq<Blob>)

  /** The rest of a read with exclusive access, batch by batch. */
  function ReadOn(queue: seq<Blob>, messages: seq<Blob>, emptyBatches: nat, max: int, smsType: SmsType,
                  filter: string): Outcome
    decreases MAX_EMPTY_BATCHES * (max - |messages|) - emptyBatches
  {
    if max <= |messages| || emptyBatches >= MAX_EMPTY_BATCHES || queue == [] then Outcome(messages, queue)
    else
      var n := Min(max - |messages|, |queue|);
      SplitSizes(queue[..n], smsType, filter);
      var claimed := Matching(queue[..n], smsType, filter);
      ReadOn(Rev(NonMatching(queue[..n], smsType, filter)) + queue[n..], messages + claimed,
             if claimed == [] then emptyBatches + 1 else 0, max, smsType, filter)
  }

  lemma ReadOneBatch(queue: seq<Blob>, items: seq<Blob>, tail: seq<Blob>, messages: seq<Blob>, emptyBatches: nat,
                     max: int, smsType: SmsType, filter: string)
    requires |messages| < max && emptyBatches < MAX_EMPTY_BATCHES
    requires queue == items + tail && |items| == Min(max - |messages|, |queue|) > 0
    ensures var claimed := Matching(items, smsType, filter);
            ReadOn(queue, messages, emptyBatches, max, smsType, filter)
            == ReadOn(Rev(NonMatching(items, smsType, filter)) + tail, messages + claimed,
                      if claimed == [] then emptyBatches + 1 else 0, max, smsType, filter)
  {
    assert queue[..|items|] == items && queue[|items|..] == tail;
  }

  lemma {:induction false} SplitBag(l: seq<Blob>, smsType: SmsType, filter: string)
    ensures multiset(Matching(l, smsType, filter)) + multiset(NonMatching(l, smsType, filter)) == multiset(l)
  {
    if l != [] {
      SplitBag(l[1..], smsType, filter);
      assert l == [l[0]] + l[1..];
    }
  }

  lemma {:induction false} RevBag(l: seq<Blob>)
    ensures multiset(Rev(l)) == multiset(l)
  {
    if l != [] {
      RevBag(l[1..]);
      assert l == [l[0]] + l[1..];
    }
  }

  lemma RunCons(s: State, e: Event, rest: seq<Event>, t: State)
    requires Enabled(s, e) && Run(Apply(s, e), rest, t)
    ensures Run(s, [e] + rest, t)
  {
    assert ([e] + rest)[1..] == rest;
  }

  lemma {:induction false} RunConcat(s: State, first: seq<Event>, mid: State, rest: seq<Event>, t: State)
    requires Run(s, first, mid) && Run(mid, rest, t)
    ensures Run(s, first + rest, t)
    decreases |first|
  {
    if first == [] {
      assert first + rest == rest;
    } else {
      var next := Apply(s, first[0]);
      RunConcat(next, first[1..], mid, rest, t);
      RunCons(s, first[0], first[1..] + rest, t);
      HeadFirst(first, rest);
    }
  }

  lemma HeadFirst(first: seq<Event>, rest: seq<Event>)
    requires first != []
    ensures [first[0]] + (first[1..] + rest) == first + rest
  {
  }

  lemma RunAppend(s: State, first: seq<Event>, mid: State, e: Event)
    requires Run(s, first, mid) && Enabled(mid, e)
    ensures Run(s, first + [e], Apply(mid, e))
  {
    RunCons(mid, e, [], Apply(mid, e));
    assert [e] + [] == [e];
    RunConcat(s, first, mid, [e], Apply(mid, e));
  }

  /** A removal of an id that is not claimed changes nothing. */
  ghost function Removed(s: State, id: int, temporary: bool, pushOk: bool): State {
    if id !in s.pending then s
    else if temporary && !pushOk then Apply(s, ReleaseLost(id))
    else Apply(s, Release(id, temporary))
  }

  lemma WhatIsRemoved(s: State, id: int, temporary: bool, pushOk: bool)
    requires id in s.pending
    ensures var b, rest := s.pending[id], s.pending - {id};
            Removed(s, id, temporary, pushOk)
            == if !temporary then s.(pending := rest, removed := s.removed + multiset{b})
               else if pushOk then s.(pending := rest, queue := [b] + s.queue, index := Indexed(s.index, b))
               else s.(pending := rest, lost := s.lost + multiset{b})
  {
  }

  class StoreClient {
    var queue: seq<Blob>
    var pending: map<int, Blob>
    var used: set<int>
    var index: set<string>
    ghost var mine: multiset<Blob>
    ghost var theirs: multiset<Blob>
    ghost var added: multiset<Blob>
    ghost var removed: multiset<Blob>
    ghost var lost: multiset<Blob>

    ghost function View(): State
      reads this
    {
      State(queue, mine, theirs, pending, used, index, added, removed, lost)
    }

    /** Since `before`, this has happened. (The quantifier keeps the verifier from unfolding `Run` wherever it
        is carried along.) */
    ghost predicate Since(before: State, trace: seq<Event>)
      reads this
    {
      exists now :: now == View() && Run(before, trace, now)
    }

    constructor ()
      ensures Empty(View()) && used == {} && index == {}
    {
      queue, pending, used, index := [], map[], {}, {};
      mine, theirs, added, removed, lost := multiset{}, multiset{}, multiset{}, multiset{}, multiset{};
    }

    /** Between two commands of one client the others may do anything they can do, unless the store is
        `quiet`: the caller has it to itself and its pushes succeed. */
    method Interfere(ghost quiet: bool) returns (ghost steps: seq<Event>)
      modifies this
      ensures quiet ==> steps == []
      ensures ByOthers(steps) && Run(old(View()), steps, View())
      ensures mine == old(mine)
    {
      steps := [];
    }

    /** `pushOk` is whether the LPUSH succeeded. */
    method AddMessage(id: int, smsType: SmsType, service: string, payload: nat, pushOk: bool) returns (res: bool)
      requires id !in used
      modifies this
      ensures res == pushOk
      ensures var b := Blob(id, Message(smsType, service), payload);
              && View() == Apply(old(View()), if pushOk then Add(b, true) else AddFailed(id))
              && queue == (if pushOk then [b] else []) + old(queue) && used == old(used) + {id}
      ensures pushOk ==> index == old(index) + {if service == "" then "_global_" else Lower(service)}
    {
      var b := Blob(id, Message(smsType, service), payload);
      used := used + {id};
      res := pushOk;
      if res {
        queue := [b] + queue;
        index := index + {NormService(service)};
        added := added + multiset{b};
      }
    }

    /** A temporary release whose push fails reports failure, and the entry is gone. */
    method RemoveMessage(id: int, temporary: bool, pushOk: bool) returns (res: bool)
      modifies this
      ensures res <==> id in old(pending) && (temporary ==> pushOk)
      ensures View() == Removed(old(View()), id, temporary, pushOk)
      ensures pending == old(pending) - {id}
      ensures queue == (if res && temporary then [old(pending)[id]] else []) + old(queue)
    {
      res := false;
      if id in pending {
        WhatIsRemoved(View(), id, temporary, pushOk);
        var b := pending[id];
        if temporary {
          if pushOk {
            queue := [b] + queue;
            res := true;
            index := Indexed(index, b);
          } else {
            lost := lost + multiset{b};
          }
        } else {
          res := true;
          removed := removed + multiset{b};
        }
        pending := pending - {id};
      }
    }

    /** The LPUSH of an entry back on the list may fail, unless the caller is granted a quiet store. Its result
        is not looked at. */
    method TryPush(b: Blob, ghost quiet: bool) returns (ghost ok: bool)
      requires b in mine
      modifies this`queue, this`mine, this`lost
      ensures quiet ==> ok
      ensures View() == Apply(old(View()), if ok then PushBack(Me, b) else Lose(Me, b))
    {
      mine := mine - multiset{b};
      queue := [b] + queue;
      ok := true;
    }

    method LpopBatch(count: nat) returns (items: seq<Blob>)
      modifies this
      ensures items == old(queue)[..Min(count, |old(queue)|)]
      ensures View() == Apply(old(View()), Pop(Me, count))
      ensures items + queue == old(queue)
    {
      var n := Min(count, |queue|);
      items, queue := queue[..n], queue[n..];
      mine := mine + multiset(items);
    }

    /** Claims a matching entry or pushes it back on the head of the list. */
    method Dispose(b: Blob, smsType: SmsType, filter: string, ghost quiet: bool) returns (claimed: bool, ghost e: Event)
      requires b in mine
      modifies this
      ensures claimed <==> Matches(b, smsType, filter)
      ensures pending == if claimed then old(pending)[b.globalId := b] else old(pending)
      ensures e == (if claimed then Claim(Me, b) else if e.Lose? then Lose(Me, b) else PushBack(Me, b))
      ensures quiet ==> !e.Lose?
      ensures Enabled(old(View()), e) && View() == Apply(old(View()), e)
    {
      claimed := Matches(b, smsType, filter);
      e := Claim(Me, b);
      if claimed {
        mine := mine - multiset{b};
        pending := pending[b.globalId := b];
      } else {
        ghost var ok := TryPush(b, quiet);
        e := if ok then PushBack(Me, b) else Lose(Me, b);
      }
    }

    /** One turn of the inner loop: the other clients, then this entry. The trace grows by what happened. */
    method DisposeNext(b: Blob, smsType: SmsType, filter: string, ghost before: State, ghost trace: seq<Event>,
                       ghost quiet: bool)
      returns (claimed: bool, ghost longer: seq<Event>)
      requires b in mine && Since(before, trace)
      modifies this
      ensures claimed <==> Matches(b, smsType, filter)
      ensures mine == old(mine) - multiset{b}
      ensures Since(before, longer)
      ensures quiet ==> queue == (if claimed then [] else [b]) + old(queue)
    {
      ghost var start := View();
      ghost var steps := Interfere(quiet);
      ghost var now := View();
      RunConcat(before, trace, start, steps, now);
      ghost var e;
      claimed, e := Dispose(b, smsType, filter, quiet);
      RunAppend(before, trace + steps, now, e);
      longer := trace + steps + [e];
    }

    /** One turn of the inner loop on the entries still at hand. */
    method DisposeHead(rest: seq<Blob>, claimed: seq<Blob>, smsType: SmsType, filter: string, ghost before: State,
                       ghost trace: seq<Event>, ghost quiet: bool)
      returns (more: seq<Blob>, ghost longer: seq<Event>)
      requires rest != [] && multiset(rest) <= mine && Since(before, trace)
      modifies this
      ensures more + Matching(rest[1..], smsType, filter) == claimed + Matching(rest, smsType, filter)
      ensures multiset(rest[1..]) <= mine && mine - multiset(rest[1..]) == old(mine) - multiset(rest)
      ensures Since(before, longer)
      ensures quiet ==>
        Rev(NonMatching(rest[1..], smsType, filter)) + queue == Rev(NonMatching(rest, smsType, filter)) + old(queue)
    {
      HeadClaimed(rest, claimed, smsType, filter);
      HeadPushedBack(rest, queue, smsType, filter);
      var ok;
      ok, longer := DisposeNext(rest[0], smsType, filter, before, trace, quiet);
      more := if ok then claimed + [rest[0]] else claimed;
    }

    /** The inner loop over one popped batch. */
    method DisposeBatch(items: seq<Blob>, smsType: SmsType, filter: string, ghost before: State,
                        ghost trace: seq<Event>, ghost quiet: bool)
      returns (claimed: seq<Blob>, ghost longer: seq<Event>)
      requires multiset(items) <= mine && Since(before, trace)
      modifies this
      ensures claimed == Matching(items, smsType, filter)
      ensures mine == old(mine) - multiset(items)
      ensures Since(before, longer)
      ensures quiet ==> queue == Rev(NonMatching(items, smsType, filter)) + old(queue)
    {
      claimed, longer := [], trace;
      var rest := items;
      while rest != []
        invariant claimed + Matching(rest, smsType, filter) == Matching(items, smsType, filter)
        invariant multiset(rest) <= mine && mine - multiset(rest) == old(mine) - multiset(items)
        invariant Since(before, longer)
        invariant quiet ==>
          Rev(NonMatching(rest, smsType, filter)) + queue == Rev(NonMatching(items, smsType, filter)) + old(queue)
      {
        claimed, longer := DisposeHead(rest, claimed, smsType, filter, before, longer, quiet);
        rest := rest[1..];
      }
    }

    /** The pop at the head of the outer loop. */
    method PopNext(count: nat, ghost before: State, ghost trace: seq<Event>, ghost quiet: bool)
      returns (items: seq<Blob>, ghost longer: seq<Event>)
      requires Since(before, trace)
      modifies this
      ensures |items| <= count && mine == old(mine) + multiset(items)
      ensures Since(before, longer)
      ensures quiet ==> old(queue) == items + queue && |items| == Min(count, |old(queue)|)
    {
      ghost var start := View();
      ghost var steps := Interfere(quiet);
      ghost var now := View();
      RunConcat(before, trace, start, steps, now);
      items := LpopBatch(count);
      RunAppend(before, trace + steps, now, Pop(Me, count));
      longer := trace + steps + [Pop(Me, count)];
    }

    /** What is done with the entries popped. */
    method Settle(items: seq<Blob>, max: int, messages: seq<Blob>, emptyBatches: nat, smsType: SmsType,
                  filter: string, ghost before: State, ghost trace: seq<Event>, ghost quiet: bool)
      returns (claimed: seq<Blob>, ghost longer: seq<Event>)
      requires multiset(items) <= mine && Since(before, trace)
      requires |messages| < max && emptyBatches < MAX_EMPTY_BATCHES
      requires quiet ==> |items| == Min(max - |messages|, |items| + |queue|) > 0
      modifies this
      ensures |claimed| <= |items| && forall b :: b in claimed ==> Matches(b, smsType, filter)
      ensures mine == old(mine) - multiset(items) && Since(before, longer)
      ensures quiet ==>
                ReadOn(items + old(queue), messages, emptyBatches, max, smsType, filter)
                == ReadOn(queue, messages + claimed, if claimed == [] then emptyBatches + 1 else 0, max, smsType, filter)
    {
      SplitSizes(items, smsType, filter);
      if quiet {
        ReadOneBatch(items + queue, items, queue, messages, emptyBatches, max, smsType, filter);
      }
      claimed, longer := DisposeBatch(items, smsType, filter, before, trace, quiet);
    }

    /** One turn of the outer loop: pop as many as are still wanted, claim or push back each. */
    method Round(max: int, messages: seq<Blob>, emptyBatches: nat, smsType: SmsType, filter: string,
                 ghost before: State, ghost trace: seq<Event>, ghost quiet: bool)
      returns (found: bool, claimed: seq<Blob>, ghost longer: seq<Event>)
      requires |messages| < max && emptyBatches < MAX_EMPTY_BATCHES && Since(before, trace)
      modifies this
      ensures |claimed| <= max - |messages| && forall b :: b in claimed ==> Matches(b, smsType, filter)
      ensures mine == old(mine) && Since(before, longer)
      ensures !found ==> claimed == [] && (quiet ==> queue == old(queue) == [])
      ensures found && quiet ==>
                ReadOn(old(queue), messages, emptyBatches, max, smsType, filter)
                == ReadOn(queue, messages + claimed, if claimed == [] then emptyBatches + 1 else 0, max, smsType, filter)
    {
      var rawItems;
      rawItems, longer := PopNext(max - |messages|, before, trace, quiet);
      if |rawItems| == 0 {
        return false, [], longer;
      }
      found := true;
      claimed, longer := Settle(rawItems, max, messages, emptyBatches, smsType, filter, before, longer, quiet);
    }

    /** smpp_database_redis_get_stored. `pops` counts the pops that found something. Whatever the other
        clients do in between, there are at most 32 of them per message asked for; with the store to
        itself the reader has the closed form. */
    method GetStored(smsType: SmsType, filter: string, limit: int, ghost quiet: bool)
      returns (messages: seq<Blob>, ghost pops: nat, ghost trace: seq<Event>)
      modifies this
      ensures forall b :: b in messages ==> AskedFor(b, smsType, filter)
      ensures var max := if limit == 0 then 1000 else limit;
              max >= 0 ==> |messages| <= max && pops <= 32 * max
      ensures mine == old(mine) && Run(old(View()), trace, View())
      ensures quiet ==> messages == Claims(old(queue), Effective(limit), smsType, filter)
      ensures quiet ==> queue == Leaves(old(queue), Effective(limit), smsType, filter)
      ensures quiet ==> TakesWhatIsAskedFor(old(queue), limit, smsType, filter, messages, queue)
    {
      ghost var before := View();
      messages, pops, trace := [], 0, [];
      var max := Effective(limit);
      var picked, emptyBatches := 0, 0;
      ghost var outcome := ReadOn(queue, [], 0, max, smsType, filter);
      ReadInClosedForm(queue, max, smsType, filter);
      ClosedFormTakes(queue, limit, smsType, filter);
      assert Run(before, trace, View());
      while picked < max && emptyBatches < MAX_EMPTY_BATCHES
        invariant picked == |messages| && 0 <= emptyBatches <= MAX_EMPTY_BATCHES
        invariant max >= 0 ==> picked <= max
        invariant pops <= MAX_EMPTY_BATCHES * picked + emptyBatches
        invariant 0 < max == picked ==> emptyBatches == 0
        invariant forall b :: b in messages ==> AskedFor(b, smsType, filter)
        invariant mine == before.mine && Since(before, trace)
        invariant quiet ==> ReadOn(queue, messages, emptyBatches, max, smsType, filter) == outcome
        decreases MAX_EMPTY_BATCHES * (max - picked) - emptyBatches
      {
        var found, claimed;
        AskedForIsMatching(smsType, filter);
        found, claimed, trace := Round(max, messages, emptyBatches, smsType, filter, before, trace, quiet);
        if !found {
          break;
        }
        pops := pops + 1;
        messages := messages + claimed;
        picked := picked + |claimed|;
        emptyBatches := if |claimed| == 0 then emptyBatches + 1 else 0;
      }
    }
  }

  /** Where a reader with exclusive access is after `rounds` batches. */
  ghost predicate Progress(l: seq<Blob>, max: int, smsType: SmsType, filter: string,
                           rounds: nat, messages: seq<Blob>, queue: seq<Blob>, emptyBatches: nat)
  {
    if rounds == 0 then messages == [] && queue == l && emptyBatches == 0
    else
      && max > 0
      && var n := Min(max, |l|);
      var rest := NonMatching(l[..n], smsType, filter);
      && messages == Matching(l[..n], smsType, filter)
      && queue == Flip(rounds, rest) + l[n..]
      && emptyBatches == (if messages == [] then rounds else rounds - 1)
  }

  lemma NextRound(l: seq<Blob>, max: int, smsType: SmsType, filter: string, rounds: nat, messages: seq<Blob>,
                  queue: seq<Blob>, emptyBatches: nat, items: seq<Blob>, tail: seq<Blob>)
    requires Progress(l, max, smsType, filter, rounds, messages, queue, emptyBatches)
    requires |messages| < max && queue == items + tail && |items| == Min(max - |messages|, |queue|) > 0
    ensures var claimed := Matching(items, smsType, filter);
            Progress(l, max, smsType, filter, rounds + 1, messages + claimed,
                     Rev(NonMatching(items, smsType, filter)) + tail, if claimed == [] then emptyBatches + 1 else 0)
  {
    var n := Min(max, |l|);
    var rest := NonMatching(l[..n], smsType, filter);
    SplitSizes(l[..n], smsType, filter);
    if rounds == 0 {
      assert items == l[..n] && tail == l[n..];
    } else {
      FlipNext(rounds, rest);
      var flipped := Flip(rounds, rest);
      assert |items| == |flipped| > 0;
      assert items == queue[..|items|] == flipped && tail == queue[|items|..] == l[n..];
      RevMembers(rest);
      NoneMatch(items, smsType, filter);
    }
  }

  lemma AllMatched(l: seq<Blob>, max: int, smsType: SmsType, filter: string)
    requires max > 0 && |NonMatching(l[..Min(max, |l|)], smsType, filter)| == 0
    ensures Leaves(l, max, smsType, filter) == l[Min(max, |l|)..]
  {
    var rest := NonMatching(l[..Min(max, |l|)], smsType, filter);
    assert rest == [] && Rev(rest) == [];
  }

  lemma NoneMatched(l: seq<Blob>, max: int, smsType: SmsType, filter: string)
    requires max > 0 && Matching(l[..Min(max, |l|)], smsType, filter) == []
    ensures Leaves(l, max, smsType, filter) == l == NonMatching(l[..Min(max, |l|)], smsType, filter) + l[Min(max, |l|)..]
  {
    SplitSizes(l[..Min(max, |l|)], smsType, filter);
  }

  lemma SomeMatched(l: seq<Blob>, max: int, smsType: SmsType, filter: string)
    requires max > 0 && Matching(l[..Min(max, |l|)], smsType, filter) != []
    ensures Leaves(l, max, smsType, filter) == Rev(NonMatching(l[..Min(max, |l|)], smsType, filter)) + l[Min(max, |l|)..]
  {
    SplitSizes(l[..Min(max, |l|)], smsType, filter);
  }

  /** A read that has claimed all it wants, or finds the list empty, has declined nothing. */
  lemma NothingDeclined(l: seq<Blob>, max: int, smsType: SmsType, filter: string, rounds: nat, messages: seq<Blob>,
                        queue: seq<Blob>, emptyBatches: nat)
    requires max > 0 && rounds > 0 && Progress(l, max, smsType, filter, rounds, messages, queue, emptyBatches)
    requires queue == [] || |messages| == max
    ensures queue == Leaves(l, max, smsType, filter)
  {
    var n := Min(max, |l|);
    var rest := NonMatching(l[..n], smsType, filter);
    SplitSizes(l[..n], smsType, filter);
    FlipNext(rounds, rest);
    assert |queue| == |rest| + (|l| - n);
    assert |rest| == 0;
    AllMatched(l, max, smsType, filter);
  }

  /** A read that gives up has reversed what it declined 32 times, or once more if something matched. */
  lemma GivesUp(l: seq<Blob>, max: int, smsType: SmsType, filter: string, rounds: nat, messages: seq<Blob>,
                queue: seq<Blob>, emptyBatches: nat)
    requires max > 0 && rounds > 0 && Progress(l, max, smsType, filter, rounds, messages, queue, emptyBatches)
    requires emptyBatches == MAX_EMPTY_BATCHES
    ensures queue == Leaves(l, max, smsType, filter)
  {
    if messages == [] {
      assert rounds % 2 == 0;
      NoneMatched(l, max, smsType, filter);
    } else {
      assert rounds % 2 == 1;
      SomeMatched(l, max, smsType, filter);
    }
  }

  lemma Stops(l: seq<Blob>, max: int, smsType: SmsType, filter: string, rounds: nat, messages: seq<Blob>,
              queue: seq<Blob>, emptyBatches: nat)
    requires max > 0 && Progress(l, max, smsType, filter, rounds, messages, queue, emptyBatches)
    requires queue == [] || |messages| == max || emptyBatches == MAX_EMPTY_BATCHES
    ensures messages == Claims(l, max, smsType, filter) && queue == Leaves(l, max, smsType, filter)
  {
    if rounds > 0 {
      if queue == [] || |messages| == max {
        NothingDeclined(l, max, smsType, filter, rounds, messages, queue, emptyBatches);
      } else {
        GivesUp(l, max, smsType, filter, rounds, messages, queue, emptyBatches);
      }
    }
  }

  lemma WithinLimit(l: seq<Blob>, max: int, smsType: SmsType, filter: string, rounds: nat, messages: seq<Blob>,
                    queue: seq<Blob>, emptyBatches: nat)
    requires max > 0 && Progress(l, max, smsType, filter, rounds, messages, queue, emptyBatches)
    ensures |messages| <= max
  {
    SplitSizes(l[..Min(max, |l|)], smsType, filter);
  }

  lemma {:induction false} ReadFromProgress(l: seq<Blob>, max: int, smsType: SmsType, filter: string, rounds: nat,
                                            messages: seq<Blob>, queue: seq<Blob>, emptyBatches: nat)
    requires max > 0 && Progress(l, max, smsType, filter, rounds, messages, queue, emptyBatches)
    requires emptyBatches <= MAX_EMPTY_BATCHES
    ensures ReadOn(queue, messages, emptyBatches, max, smsType, filter)
         == Outcome(Claims(l, max, smsType, filter), Leaves(l, max, smsType, filter))
    decreases MAX_EMPTY_BATCHES * (max - |messages|) - emptyBatches
  {
    WithinLimit(l, max, smsType, filter, rounds, messages, queue, emptyBatches);
    if |messages| == max || emptyBatches == MAX_EMPTY_BATCHES || queue == [] {
      Stops(l, max, smsType, filter, rounds, messages, queue, emptyBatches);
    } else {
      var nextMessages, nextQueue, nextEmpty := Advance(l, max, smsType, filter, rounds, messages, queue, emptyBatches);
      ReadFromProgress(l, max, smsType, filter, rounds + 1, nextMessages, nextQueue, nextEmpty);
    }
  }

  lemma Advance(l: seq<Blob>, max: int, smsType: SmsType, filter: string, rounds: nat, messages: seq<Blob>,
                queue: seq<Blob>, emptyBatches: nat)
    returns (nextMessages: seq<Blob>, nextQueue: seq<Blob>, nextEmpty: nat)
    requires Progress(l, max, smsType, filter, rounds, messages, queue, emptyBatches)
    requires |messages| < max && emptyBatches < MAX_EMPTY_BATCHES && queue != []
    ensures Progress(l, max, smsType, filter, rounds + 1, nextMessages, nextQueue, nextEmpty)
    ensures ReadOn(queue, messages, emptyBatches, max, smsType, filter)
         == ReadOn(nextQueue, nextMessages, nextEmpty, max, smsType, filter)
    ensures nextEmpty <= MAX_EMPTY_BATCHES
    ensures |nextMessages| > |messages| || (nextMessages == messages && nextEmpty == emptyBatches + 1)
  {
    var n := Min(max - |messages|, |queue|);
    var items, tail := queue[..n], queue[n..];
    assert queue == items + tail;
    NextRound(l, max, smsType, filter, rounds, messages, queue, emptyBatches, items, tail);
    ReadOneBatch(queue, items, tail, messages, emptyBatches, max, smsType, filter);
    var claimed := Matching(items, smsType, filter);
    nextMessages, nextQueue := messages + claimed, Rev(NonMatching(items, smsType, filter)) + tail;
    nextEmpty := if claimed == [] then emptyBatches + 1 else 0;
  }

  /** The batches have the closed form: the 32 reversals of a list without a match cancel, and a match
      leaves an odd number of them. */
  lemma ReadInClosedForm(l: seq<Blob>, max: int, smsType: SmsType, filter: string)
    requires max != 0
    ensures ReadOn(l, [], 0, max, smsType, filter)
         == Outcome(Claims(l, max, smsType, filter), Leaves(l, max, smsType, filter))
  {
    if max > 0 {
      ReadFromProgress(l, max, smsType, filter, 0, [], l, 0);
    }
  }
}
