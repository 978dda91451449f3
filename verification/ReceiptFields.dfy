/** Receipts whose fields come in any order: what the parser recovers, by the pattern or by the keys. */
module ReceiptFields {
  import opened Common
  import opened Scanning
  import opened Receipt

  datatype Field = Field(key: string, value: string)

  predicate KnownKey(k: string) {
    k == "id" || k == "sub" || k == "dlvrd" || k == "submit date" || k == "done date" || k == "stat" || k == "err" || k == "text"
  }

  /** A value without colons, white space or NULs. */
  predicate Plain(v: string) {
    forall i :: 0 <= i < |v| ==> v[i] != ':' && !IsSpace(v[i]) && v[i] != NUL
  }

  predicate WellFormed(fs: seq<Field>) {
    && (forall i :: 0 <= i < |fs| ==> KnownKey(fs[i].key) && Plain(fs[i].value))
    && (forall i, j :: 0 <= i < j < |fs| ==> fs[i].key != fs[j].key)
  }

  function Render(fs: seq<Field>): string
    decreases |fs|, 0
  {
    if fs == [] then "" else fs[0].key + ":" + fs[0].value + Tail(fs[1..])
  }

  function Tail(fs: seq<Field>): string
    decreases |fs|, 1
  {
    if fs == [] then "" else " " + Render(fs)
  }

  /** A receipt: the fields and, after them, a text that may hold anything. */
  function Message(fs: seq<Field>, text: Option<string>): string {
    match text
    case None => Render(fs)
    case Some(x) => (if fs == [] then "" else Render(fs) + " ") + "text:" + x
  }

  /** The value written for a key, empty if there is none. */
  function ValueFor(fs: seq<Field>, key: string): string {
    if fs == [] then "" else if fs[0].key == key then fs[0].value else ValueFor(fs[1..], key)
  }

  predicate Present(fs: seq<Field>, key: string) {
    exists i :: 0 <= i < |fs| && fs[i].key == key
  }

  predicate Word(w: string) {
    w != "" && forall i :: 0 <= i < |w| ==> w[i] != ':' && w[i] != ' '
  }

  predicate EndsWith(k: string, w: string) {
    |w| <= |k| && k[|k| - |w|..] == w
  }

  predicate NoColon(k: string) {
    forall i :: 0 <= i < |k| ==> k[i] != ':'
  }

  /** Keys without colons, each once, and plain values. */
  predicate Parts(fs: seq<Field>) {
    && (forall i :: 0 <= i < |fs| ==> NoColon(fs[i].key) && Plain(fs[i].value))
    && (forall i, j :: 0 <= i < j < |fs| ==> fs[i].key != fs[j].key)
  }

  /** A key that no other key ends with. */
  predicate Telling(fs: seq<Field>, w: string) {
    Parts(fs) && Word(w) && forall i :: 0 <= i < |fs| && EndsWith(fs[i].key, w) ==> fs[i].key == w
  }

  /** A word followed by a colon can only be the end of a key: what follows is that key's value. */
  lemma {:induction false} ColonEndsKey(fs: seq<Field>, p: nat, w: string) returns (j: nat)
    requires Parts(fs) && Word(w) && At(Render(fs), w + ":", p)
    ensures j < |fs| && EndsWith(fs[j].key, w)
    ensures Render(fs)[p + |w| + 1..] == fs[j].value + Tail(fs[j + 1..])
    decreases |fs|
  {
    var s := Render(fs);
    var key, value := fs[0].key, fs[0].value;
    var head := key + ":" + value;
    var colon := p + |w|;
    ColonAt(s, p, w);
    if colon < |head| {
      assert s[colon] == head[colon];
      InFirst(key, value, colon);
      j := 0;
      EndOfFirst(key, value, Tail(fs[1..]), p, w);
    } else {
      BeyondFirst(head, Tail(fs[1..]), p, w);
      var q := p - |head| - 1;
      j := ColonEndsKey(fs[1..], q, w);
      assert s[p + |w| + 1..] == Render(fs[1..])[q + |w| + 1..];
      j := j + 1;
    }
  }

  lemma ColonAt(s: string, p: nat, w: string)
    requires At(s, w + ":", p)
    ensures s[p + |w|] == ':' && s[p..p + |w|] == w && s[p..p + |w| + 1] == w + ":"
  {
    assert s[p..p + |w| + 1][|w|] == ':';
    assert s[p..p + |w|] == s[p..p + |w| + 1][..|w|];
  }

  lemma InFirst(key: string, value: string, colon: nat)
    requires NoColon(key) && Plain(value) && colon < |key + ":" + value| && (key + ":" + value)[colon] == ':'
    ensures colon == |key|
  {
    var s := key + ":" + value;
    assert forall j :: |key| < j < |s| ==> s[j] == value[j - |key| - 1];
  }

  lemma EndOfFirst(key: string, value: string, tail: string, p: nat, w: string)
    requires p + |w| == |key| && (key + ":" + value + tail)[p..p + |w|] == w
    ensures EndsWith(key, w) && (key + ":" + value + tail)[p + |w| + 1..] == value + tail
  {
    var s := key + ":" + value + tail;
    assert key[p..] == s[p..p + |w|];
    assert s == (key + ":") + (value + tail);
  }

  lemma BeyondFirst(head: string, tail: string, p: nat, w: string)
    requires Word(w) && At(head + tail, w + ":", p) && p + |w| >= |head| && (tail == "" || tail[0] == ' ')
    ensures p > |head| && tail != "" && At(tail[1..], w + ":", p - |head| - 1)
  {
    var s := head + tail;
    ColonAt(s, p, w);
    assert s[|head|] == ' ' && p + |w| > |head|;
    AtOctets(s, w + ":", p);
    assert forall i :: 0 <= i <= |w| ==> (w + ":")[i] != ' ';
    assert p > |head|;
    assert s[p..p + |w| + 1] == tail[1..][p - |head| - 1..p - |head| + |w|];
  }

  /** The five keys that have no blank: no other key ends like one of them. */
  predicate Simple(w: string) {
    w == "id" || w == "sub" || w == "dlvrd" || w == "stat" || w == "err"
  }

  /** The keys are told apart by their last two octets, the dates but for one another. */
  lemma LastOctets(k: string)
    requires KnownKey(k)
    ensures |k| >= 2
    ensures var x, y := k[|k| - 2], k[|k| - 1];
            && (k == "id" <==> x == 'i' && y == 'd') && (k == "sub" <==> y == 'b') && (k == "dlvrd" <==> x == 'r' && y == 'd')
            && (k == "stat" <==> x == 'a' && y == 't') && (k == "err" <==> y == 'r')
  {
  }

  lemma SimpleSuffix(k: string, w: string)
    requires KnownKey(k) && Simple(w) && EndsWith(k, w)
    ensures k == w
  {
    LastOctets(k);
    LastOctets(w);
    LastTwo(k, w);
  }

  lemma LastTwo(k: string, w: string)
    requires EndsWith(k, w) && |w| >= 2
    ensures k[|k| - 2] == w[|w| - 2] && k[|k| - 1] == w[|w| - 1]
  {
  }

  lemma SimpleKeysTell(fs: seq<Field>, w: string)
    requires WellFormed(fs) && Simple(w)
    ensures Telling(fs, w)
  {
    forall i | 0 <= i < |fs| ensures NoColon(fs[i].key) && (EndsWith(fs[i].key, w) ==> fs[i].key == w) {
      KeyTells(fs[i].key, w);
    }
    SimpleIsWord(w);
  }

  lemma SimpleIsWord(w: string)
    requires Simple(w)
    ensures Word(w)
  {
  }

  lemma KeyTells(k: string, w: string)
    requires KnownKey(k) && Simple(w)
    ensures NoColon(k) && (EndsWith(k, w) ==> k == w)
  {
    KnownIsNoColon(k);
    if EndsWith(k, w) { SimpleSuffix(k, w); }
  }

  lemma KnownIsNoColon(k: string)
    requires KnownKey(k)
    ensures NoColon(k)
  {
  }

  lemma {:induction false} ValueOfField(fs: seq<Field>, j: nat)
    requires Parts(fs) && j < |fs|
    ensures ValueFor(fs, fs[j].key) == fs[j].value && Present(fs, fs[j].key)
  {
    if j > 0 {
      ValueOfField(fs[1..], j - 1);
      assert fs[0].key != fs[j].key;
    }
  }

  lemma {:induction false} PresentKeyIsFound(fs: seq<Field>, key: string) returns (p: nat)
    requires Present(fs, key)
    ensures At(Render(fs), key + ":", p)
    decreases |fs|
  {
    var s := Render(fs);
    var i :| 0 <= i < |fs| && fs[i].key == key;
    if i == 0 {
      p := 0;
      var rest := fs[0].value + Tail(fs[1..]);
      assert s == (key + ":") + rest;
      assert (key + ":" + rest)[..|key + ":"|] == key + ":";
    } else {
      assert fs[1..][i - 1].key == key;
      var q := PresentKeyIsFound(fs[1..], key);
      p := |fs[0].key| + 1 + |fs[0].value| + 1 + q;
      var head := fs[0].key + ":" + fs[0].value + " ";
      assert s == head + Render(fs[1..]) && p == |head| + q;
      AtSuffix(head, Render(fs[1..]), key + ":", q);
    }
  }

  lemma {:induction false} AbsentValue(fs: seq<Field>, key: string)
    requires !Present(fs, key)
    ensures ValueFor(fs, key) == ""
  {
    if fs != [] {
      assert fs[0].key != key;
      forall i | 0 <= i < |fs[1..]| ensures fs[1..][i].key != key { assert fs[i + 1].key != key; }
      AbsentValue(fs[1..], key);
    }
  }

  // ------------------------------------------------------------------ fields and a text

  /** A message is its fields followed by `x`, which is empty or the text after an empty last field. */
  predicate Ends(gs: seq<Field>, x: string) {
    x == "" || (gs != [] && gs[|gs| - 1] == Field("text", ""))
  }

  lemma {:induction false} RenderSnoc(fs: seq<Field>, g: Field)
    ensures Render(fs + [g]) == (if fs == [] then "" else Render(fs) + " ") + (g.key + ":" + g.value)
    decreases |fs|
  {
    var gs := fs + [g];
    if fs == [] {
      assert gs == [g] && Tail(gs[1..]) == "";
      assert Render(gs) == g.key + ":" + g.value + "";
    } else {
      RenderSnoc(fs[1..], g);
      assert gs[1..] == fs[1..] + [g] && gs[0] == fs[0];
      if |fs| == 1 {
        assert fs[1..] == [] && Render(fs) == fs[0].key + ":" + fs[0].value + "";
      }
    }
  }

  lemma MessageIsFields(fs: seq<Field>, x: string)
    ensures Message(fs, Some(x)) == Render(fs + [Field("text", "")]) + x
  {
    RenderSnoc(fs, Field("text", ""));
    assert "text" + ":" + "" == "text:";
  }

  /** A key found inside the fields has its value after it, up to a blank or the end of the message. */
  lemma AtKeyIn(gs: seq<Field>, x: string, p: nat, w: string) returns (after: string)
    requires Telling(gs, w) && w != "text" && Ends(gs, x) && At(Render(gs) + x, w + ":", p) && p + |w| + 1 <= |Render(gs)|
    ensures Present(gs, w) && Plain(ValueFor(gs, w))
    ensures (Render(gs) + x)[p + |w| + 1..] == ValueFor(gs, w) + after && (after == "" || after[0] == ' ')
  {
    AtPrefix(Render(gs), x, w + ":", p);
    var j := ColonEndsKey(gs, p, w);
    ValueOfField(gs, j);
    var rest := gs[j + 1..];
    after := Tail(rest) + x;
    assert (Render(gs) + x)[p + |w| + 1..] == Render(gs)[p + |w| + 1..] + x;
    assert x != "" ==> j < |gs| - 1;
  }

  /** A key that is not among the fields is not found before the text. */
  lemma NotInFields(gs: seq<Field>, x: string, p: nat, w: string)
    requires Telling(gs, w) && w != "text" && Ends(gs, x) && !Present(gs, w) && p < |Render(gs)|
    ensures !At(Render(gs) + x, w + ":", p)
  {
    var m, key, h := Render(gs) + x, w + ":", |Render(gs)|;
    AtOctets(m, key, p);
    if At(m, key, p) && p + |key| <= h {
      var after := AtKeyIn(gs, x, p, w);
    } else if x != "" {
      LastIsColon(gs);
      assert m[h - 1] == ':';
      assert forall i :: 0 <= i < |w| ==> key[i] != ':';
    }
  }

  lemma {:induction false} LastIsColon(gs: seq<Field>)
    requires gs != [] && gs[|gs| - 1] == Field("text", "")
    ensures |Render(gs)| >= 5 && Render(gs)[|Render(gs)| - 1] == ':'
    ensures Render(gs)[|Render(gs)| - 5] == 't' && (|Render(gs)| > 5 ==> Render(gs)[|Render(gs)| - 6] == ' ')
  {
    var fs := gs[..|gs| - 1];
    assert gs == fs + [Field("text", "")];
    RenderSnoc(fs, Field("text", ""));
    var head := if fs == [] then "" else Render(fs) + " ";
    assert Render(gs) == head + "text:";
  }

  /** The key search of the fallback finds the value as written, cut to the room there is. */
  lemma KeySearchFinds(gs: seq<Field>, x: string, w: string, width: nat)
    requires Telling(gs, w) && w != "text" && Ends(gs, x) && Present(gs, w)
    ensures KeyValue(Render(gs) + x, w + ":", width) == Cut(ValueFor(gs, w), width)
  {
    var m, key := Render(gs) + x, w + ":";
    var p := PresentKeyIsFound(gs, w);
    AtPrefix(Render(gs), x, key, p);
    var curr := Find(m, key, 0);
    assert 0 <= curr <= p;
    CopiedFrom(gs, x, curr, w, width);
  }

  lemma CopiedFrom(gs: seq<Field>, x: string, curr: nat, w: string, width: nat)
    requires Telling(gs, w) && w != "text" && Ends(gs, x) && At(Render(gs) + x, w + ":", curr)
    requires curr + |w| + 1 <= |Render(gs)|
    ensures KeyFrom(Render(gs) + x, w + ":", width, curr) == Cut(ValueFor(gs, w), width)
  {
    var after := AtKeyIn(gs, x, curr, w);
    PlainValueAfter(Render(gs) + x, curr, w, ValueFor(gs, w), after, width);
  }

  lemma PlainValueAfter(m: string, curr: nat, w: string, v: string, after: string, width: nat)
    requires Word(w) && Plain(v) && At(m, w + ":", curr) && m[curr + |w| + 1..] == v + after
    requires after == "" || after[0] == ' '
    ensures KeyFrom(m, w + ":", width, curr) == Cut(v, width)
  {
    RunOverKey(m, curr, w + ":", v, after);
    ValueAfterKey(m, curr, w + ":", v, after, width);
  }

  /** It finds a key that is not among the fields exactly where the text has it. */
  lemma AbsentKeySearch(gs: seq<Field>, x: string, w: string, width: nat)
    requires Telling(gs, w) && w != "text" && Ends(gs, x) && !Present(gs, w)
    ensures KeyValue(Render(gs) + x, w + ":", width) == KeyValue(x, w + ":", width)
  {
    var head, key := Render(gs), w + ":";
    forall p | 0 <= p < |head| ensures !At(head + x, key, p) {
      NotInFields(gs, x, p, w);
    }
    KeyValueBeyond(head, x, key, width);
  }

  lemma KeyValueBeyond(head: string, x: string, key: string, width: nat)
    requires key != "" && forall p :: 0 <= p < |head| ==> !At(head + x, key, p)
    ensures KeyValue(head + x, key, width) == KeyValue(x, key, width)
  {
    FindBeyond(head, x, key);
    if Find(x, key, 0) >= 0 {
      KeyFromBeyond(head, x, key, width, Find(x, key, 0));
    }
  }

  lemma KeyFromBeyond(head: string, x: string, key: string, width: nat, curr: nat)
    requires curr + |key| <= |x|
    ensures KeyFrom(head + x, key, width, |head| + curr) == KeyFrom(x, key, width, curr)
  {
    EndOfRunBeyond(head, x, ' ', curr);
    BetweenBeyond(head, x, curr + |key|, EndOfRun(x, ' ', curr), width);
  }

  lemma BetweenBeyond(head: string, x: string, from: nat, to: nat, width: nat)
    requires from <= |x| && to <= |x|
    ensures Between(head + x, |head| + from, |head| + to, width) == Between(x, from, to, width)
  {
    if from < to {
      SliceBeyond(head, x, from, from + Min(to - from, width));
    }
  }

  lemma ValueAfterKey(s: string, curr: nat, key: string, v: string, tail: string, width: nat)
    requires curr + |key| <= |s| && s[curr + |key|..] == v + tail
    requires EndOfRun(s, ' ', curr) == curr + |key| + |v|
    ensures KeyFrom(s, key, width, curr) == Cut(v, width)
  {
    var from, n := curr + |key|, Min(|v|, width);
    assert s[from..from + n] == s[from..][..n];
  }

  lemma RunOverKey(s: string, curr: nat, key: string, v: string, tail: string)
    requires At(s, key, curr) && s[curr + |key|..] == v + tail
    requires forall i :: 0 <= i < |key| ==> key[i] != ' '
    requires forall i :: 0 <= i < |v| ==> v[i] != ' '
    requires tail == "" || tail[0] == ' '
    ensures EndOfRun(s, ' ', curr) == curr + |key| + |v|
  {
    var end := curr + |key| + |v|;
    var r := EndOfRun(s, ' ', curr);
    assert |s| == end + |tail|;
    forall i | curr <= i < end ensures s[i] != ' ' {
      if i < curr + |key| { assert s[i] == s[curr..curr + |key|][i - curr]; }
      else { assert s[i] == s[curr + |key|..][i - curr - |key|]; }
    }
    if tail != "" { assert s[end] == s[curr + |key|..][|v|] == ' '; }
  }

  // ------------------------------------------------------------------ the pattern

  predicate Suffix(r: string, s: string) {
    |r| <= |s| && forall i :: 0 <= i < |r| ==> r[i] == s[|s| - |r| + i]
  }

  lemma DropIsSuffix(r: string, s: string, n: nat)
    requires Suffix(r, s) && n <= |r|
    ensures Suffix(r[n..], s) && |r[n..]| == |r| - n
  {
  }

  lemma {:induction false} SpanOfValue(v: string, tail: string, item: Item, width: nat)
    requires !item.digits && (forall i :: 0 <= i < |v| ==> v[i] != ' ') && (tail == "" || tail[0] == ' ')
    ensures Span(v + tail, item, width) == Min(width, |v|)
    decreases width
  {
    if width > 0 && v != "" {
      assert (v + tail)[1..] == v[1..] + tail;
      SpanOfValue(v[1..], tail, item, width - 1);
    } else if v == "" {
      assert v + tail == tail;
    }
  }

  /** The simple key of an item, with its colon. */
  predicate ForKey(item: Item, w: string) {
    item.first == w + ":" && item.second == "" && !item.digits
  }

  /** The scan has not gone beyond `stop`: the end of the message, or the label of the text. */
  predicate Stop(m: string, stop: nat) {
    stop <= |m| && (stop < |m| ==> m[stop] == 't' && (stop > 0 ==> m[stop - 1] == ' '))
  }

  predicate Reached(r: string, m: string, stop: nat) {
    Suffix(r, m) && |m| - |r| <= stop
  }

  /** A literal without blanks that does not begin like "text". */
  predicate Literal(word: string) {
    word != "" && word[0] != 't' && forall i :: 0 <= i < |word| ==> word[i] != ' '
  }

  predicate Literals(items: seq<Item>) {
    forall k :: 0 <= k < |items| ==> Literal(items[k].first) && (items[k].second == "" || Literal(items[k].second))
  }

  /** A literal that matches lies before the text. */
  lemma StripStays(r: string, m: string, stop: nat, word: string)
    requires Stop(m, stop) && Reached(r, m, stop) && Literal(word) && Strip(r, word).0
    ensures Reached(Strip(r, word).1, m, stop) && (stop < |m| ==> |m| - |Strip(r, word).1| < stop)
    ensures Strip(r, word).1 == r[|word|..] && r[..|word|] == word
  {
    var q := |m| - |r|;
    DropIsSuffix(r, m, |word|);
    assert forall i :: 0 <= i < |word| ==> word[i] == r[i];
    assert forall j :: q <= j < q + |word| ==> m[j] == word[j - q];
    assert q < stop;
  }

  lemma {:induction false} SkipStays(r: string, m: string, stop: nat)
    requires Stop(m, stop) && Reached(r, m, stop)
    ensures Reached(SkipSpaces(r), m, stop)
    decreases |r|
  {
    if r != [] && IsSpace(r[0]) {
      assert r[0] == m[|m| - |r|];
      DropIsSuffix(r, m, 1);
      SkipStays(r[1..], m, stop);
    }
  }

  lemma BlankAhead(r: string, m: string, stop: nat)
    requires Stop(m, stop) && Reached(r, m, stop) && |m| - |r| < stop < |m|
    ensures var i := stop - 1 - (|m| - |r|); i < |r| && r[i] == ' '
  {
    var i := stop - 1 - (|m| - |r|);
    assert r[i] == m[|m| - |r| + i];
  }

  lemma DropReaches(r: string, m: string, stop: nat, n: nat)
    requires Suffix(r, m) && n <= |r| && |m| - |r| + n <= stop
    ensures Reached(r[n..], m, stop)
  {
    DropIsSuffix(r, m, n);
  }

  lemma SpanIsShort(r: string, m: string, stop: nat, item: Item)
    requires Stop(m, stop) && Reached(r, m, stop) && |m| - |r| < stop < |m|
    ensures |m| - |r| + Span(r, item, item.width) < stop
  {
    BlankAhead(r, m, stop);
    SpanEnds(r, item, stop - 1 - (|m| - |r|));
  }

  lemma SpanStays(r: string, m: string, stop: nat, item: Item)
    requires Stop(m, stop) && Reached(r, m, stop) && (stop < |m| ==> |m| - |r| < stop)
    ensures Reached(r[Span(r, item, item.width)..], m, stop)
  {
    var n := Span(r, item, item.width);
    if stop < |m| {
      SpanIsShort(r, m, stop, item);
    }
    assert |m| - |r| + n <= stop;
    DropReaches(r, m, stop, n);
  }

  lemma SpanEnds(r: string, item: Item, i: nat)
    requires i < |r| && r[i] == ' '
    ensures Span(r, item, item.width) <= i
  {
    assert !Accepts(item, r[i]);
  }

  lemma LiteralsStay(r: string, m: string, stop: nat, item: Item)
    requires Stop(m, stop) && Reached(r, m, stop) && Literals([item]) && AfterLiterals(r, item).0
    ensures var rest := AfterLiterals(r, item).1; Reached(rest, m, stop) && (stop < |m| ==> |m| - |rest| < stop)
  {
    assert Literal([item][0].first) && ([item][0].second == "" || Literal([item][0].second));
    StripStays(r, m, stop, item.first);
    if item.second != "" {
      var rest := Strip(r, item.first).1;
      SkipStays(rest, m, stop);
      StripStays(SkipSpaces(rest), m, stop, item.second);
    }
  }

  /** Where the scan goes on after an item. */
  lemma NextStays(r: string, m: string, stop: nat, item: Item)
    requires Stop(m, stop) && Reached(r, m, stop) && Literals([item]) && AfterLiterals(r, item).0
    ensures var rest := AfterLiterals(r, item).1; Reached(SkipSpaces(rest[Span(rest, item, item.width)..]), m, stop)
  {
    LiteralsStay(r, m, stop, item);
    var rest := AfterLiterals(r, item).1;
    SpanStays(rest, m, stop, item);
    SkipStays(rest[Span(rest, item, item.width)..], m, stop);
  }

  lemma LiteralAt(r: string, m: string, p: nat, lit: string)
    requires p <= |m| && r == m[p..] && lit <= r
    ensures p + |lit| <= |m| && m[p..p + |lit|] == lit && r[|lit|..] == m[p + |lit|..]
  {
  }

  lemma BeforeFirstItem(gs: seq<Field>, x: string, stop: nat, r: string, item: Item, w: string) returns (after: string)
    requires Telling(gs, w) && w != "text" && Ends(gs, x) && stop <= |Render(gs)| && Stop(Render(gs) + x, stop)
    requires Reached(r, Render(gs) + x, stop) && ForKey(item, w) && Literals([item]) && AfterLiterals(r, item).0
    ensures Present(gs, w) && Plain(ValueFor(gs, w)) && (after == "" || after[0] == ' ')
    ensures AfterLiterals(r, item).1 == ValueFor(gs, w) + after
  {
    var m := Render(gs) + x;
    var p := |m| - |r|;
    assert Literal([item][0].first);
    StripStays(r, m, stop, item.first);
    LiteralAt(r, m, p, w + ":");
    after := AtKeyIn(gs, x, p, w);
  }

  lemma FirstItemFinds(gs: seq<Field>, x: string, stop: nat, r: string, item: Item, w: string)
    requires Telling(gs, w) && w != "text" && Ends(gs, x) && stop <= |Render(gs)| && Stop(Render(gs) + x, stop)
    requires Reached(r, Render(gs) + x, stop) && ForKey(item, w) && Literals([item]) && AfterLiterals(r, item).0
    ensures Present(gs, w)
    ensures var rest := AfterLiterals(r, item).1;
            rest[..Span(rest, item, item.width)] == Cut(ValueFor(gs, w), item.width)
  {
    var after := BeforeFirstItem(gs, x, stop, r, item, w);
    SpanOfValue(ValueFor(gs, w), after, item, item.width);
  }

  lemma LaterItem(r: string, items: seq<Item>, k: nat)
    requires 0 < k < |Scan(r, items)|
    ensures items != [] && AfterLiterals(r, items[0]).0
    ensures var rest := AfterLiterals(r, items[0]).1;
            var next := SkipSpaces(rest[Span(rest, items[0], items[0].width)..]);
            k - 1 < |Scan(next, items[1..])| && Scan(r, items)[k] == Scan(next, items[1..])[k - 1]
  {
  }

  /** What sscanf stores for a simple key is that key's value, cut, wherever the literal matched. */
  lemma {:induction false} ScanFinds(gs: seq<Field>, x: string, stop: nat, r: string, items: seq<Item>, k: nat, w: string)
    requires Telling(gs, w) && w != "text" && Ends(gs, x) && stop <= |Render(gs)| && Stop(Render(gs) + x, stop)
    requires Reached(r, Render(gs) + x, stop) && Literals(items) && k < |Scan(r, items)| && ForKey(items[k], w)
    ensures Present(gs, w) && Scan(r, items)[k] == Cut(ValueFor(gs, w), items[k].width)
    decreases |items|
  {
    assert Literals([items[0]]) && Literals(items[1..]);
    if k == 0 {
      FirstItemFinds(gs, x, stop, r, items[0], w);
    } else {
      var rest := AfterLiterals(r, items[0]).1;
      var n := Span(rest, items[0], items[0].width);
      LaterItem(r, items, k);
      NextStays(r, Render(gs) + x, stop, items[0]);
      ScanFinds(gs, x, stop, SkipSpaces(rest[n..]), items[1..], k - 1, w);
    }
  }

  // ------------------------------------------------------------------ the result

  lemma KeyHasNoNul(k: string)
    requires KnownKey(k)
    ensures NUL !in k
  {
  }

  lemma {:induction false} RenderHasNoNul(fs: seq<Field>)
    requires forall i :: 0 <= i < |fs| ==> KnownKey(fs[i].key) && Plain(fs[i].value)
    ensures NUL !in Render(fs)
  {
    if fs != [] {
      KeyHasNoNul(fs[0].key);
      RenderHasNoNul(fs[1..]);
      assert NUL !in fs[0].value;
      assert NUL !in Tail(fs[1..]);
    }
  }

  lemma CstrOfBuffer(v: string, width: nat, buf: string)
    requires NUL !in v && |v| <= width && |buf| == width + 1
    requires forall i :: |v| <= i < |buf| ==> buf[i] == NUL
    ensures Cstr(Overwrite(buf, v)) == v
    ensures |Overwrite(buf, v)| == width + 1 && forall i :: |v| <= i <= width ==> Overwrite(buf, v)[i] == NUL
  {
    var o := Overwrite(buf, v);
    assert o[..|v|] == v && o[|v|] == NUL;
    forall i | 0 <= i < |v| ensures o[i] != NUL { assert o[i] == v[i] && v[i] in v; }
  }

  /** The buffer of a simple key. */
  predicate Buffer(i: nat, w: string) {
    (i == 0 && w == "id") || (i == 1 && w == "sub") || (i == 2 && w == "dlvrd") || (i == 5 && w == "stat") || (i == 6 && w == "err")
  }

  /** In whatever order the fields come, with any text or none, and whether or not the pattern matches: the
      parser's buffers hold the values as written, cut to 64, 3, 3, 15 and 3 octets. A field that is missing is
      looked for in the text. */
  lemma AnyOrderIsParsed(fs: seq<Field>, text: Option<string>, i: nat, w: string)
    requires WellFormed(fs) && Buffer(i, w) && (text.Some? ==> !Present(fs, "text"))
    ensures Present(fs, w) ==> FieldOf(Message(fs, text), i) == Cut(ValueFor(fs, w), [64, 3, 3, 14, 14, 15, 3][i])
    ensures !Present(fs, w) && text.Some? ==>
              FieldOf(Message(fs, text), i) == Cstr(KeyValue(text.value, w + ":", [64, 3, 3, 14, 14, 15, 3][i]))
    ensures !Present(fs, w) && text.None? ==> FieldOf(Message(fs, text), i) == ""
  {
    assert KEYS[i] == w + ":" && ForKey(PATTERN[i], w) && PATTERN[i].width == WIDTHS[i];
    PatternLiterals();
    assert w != "text";
    match text {
      case None =>
        SimpleKeysTell(fs, w);
        assert Render(fs) + "" == Render(fs);
        BufferHolds(fs, "", i, w);
        NothingInEmpty(w + ":", WIDTHS[i]);
      case Some(x) =>
        var gs := fs + [Field("text", "")];
        WithTextField(fs, w);
        SimpleKeysTell(gs, w);
        MessageIsFields(fs, x);
        BufferHolds(gs, x, i, w);
    }
  }

  lemma NothingInEmpty(key: string, width: nat)
    requires key != ""
    ensures Cstr(KeyValue("", key, width)) == ""
  {
  }

  lemma {:induction false} WithTextField(fs: seq<Field>, w: string)
    requires WellFormed(fs) && !Present(fs, "text") && w != "text"
    ensures var gs := fs + [Field("text", "")];
            WellFormed(gs) && (Present(gs, w) <==> Present(fs, w)) && ValueFor(gs, w) == ValueFor(fs, w)
  {
    var gs := fs + [Field("text", "")];
    assert forall i :: 0 <= i < |fs| ==> gs[i] == fs[i] && fs[i].key != "text";
    assert gs[|fs|].key == "text";
    ValueSnoc(fs, Field("text", ""), w);
  }

  lemma {:induction false} ValueSnoc(fs: seq<Field>, g: Field, w: string)
    requires g.key != w
    ensures ValueFor(fs + [g], w) == ValueFor(fs, w)
  {
    if fs != [] {
      ValueSnoc(fs[1..], g, w);
      assert (fs + [g])[1..] == fs[1..] + [g];
    }
  }

  lemma LiteralWords()
    ensures Literal("id:") && Literal("sub:") && Literal("dlvrd:") && Literal("submit") && Literal("done")
    ensures Literal("date:") && Literal("stat:") && Literal("err:")
  {
  }

  lemma PatternLiterals()
    ensures Literals(PATTERN)
  {
    LiteralWords();
    forall k | 0 <= k < |PATTERN|
      ensures Literal(PATTERN[k].first) && (PATTERN[k].second == "" || Literal(PATTERN[k].second))
    {
      match k {
        case 0 => case 1 => case 2 => case 3 => case 4 => case 5 => case _ =>
      }
    }
  }

  /** Where the text begins for the scan. */
  lemma TextStop(gs: seq<Field>, x: string) returns (stop: nat)
    requires Ends(gs, x)
    ensures stop <= |Render(gs)| && Stop(Render(gs) + x, stop)
  {
    if x == "" {
      stop := |Render(gs)|;
    } else {
      LastIsColon(gs);
      stop := |Render(gs)| - 5;
    }
  }

  lemma BufferHolds(gs: seq<Field>, x: string, i: nat, w: string)
    requires WellFormed(gs) && Telling(gs, w) && w != "text" && Ends(gs, x) && i < 7 && Literals(PATTERN)
    requires KEYS[i] == w + ":" && ForKey(PATTERN[i], w) && PATTERN[i].width == WIDTHS[i]
    ensures FieldOf(Render(gs) + x, i)
         == if Present(gs, w) then Cut(ValueFor(gs, w), WIDTHS[i]) else Cstr(KeyValue(x, w + ":", WIDTHS[i]))
  {
    var m, width := Render(gs) + x, WIDTHS[i];
    RenderHasNoNul(gs);
    forall i | 0 <= i < |Render(gs)| ensures Render(gs)[i] != NUL { assert Render(gs)[i] in Render(gs); }
    CstrAfter(Render(gs), x);
    var fields := Scan(Cstr(m), PATTERN);
    if i < |fields| {
      FieldFound(gs, Cstr(x), i, w);
    }
    if Present(gs, w) {
      PlainCut(gs, w, width);
      KeySearchFinds(gs, x, w, width);
      ValueInBuffer(m, fields, i, Cut(ValueFor(gs, w), width));
    } else {
      AbsentKeySearch(gs, x, w, width);
      OnlyKeyInBuffer(m, fields, i, KeyValue(x, w + ":", width));
    }
  }

  lemma FieldFound(gs: seq<Field>, y: string, i: nat, w: string)
    requires Telling(gs, w) && w != "text" && (Ends(gs, y) || y == "") && Literals(PATTERN)
    requires i < |Scan(Render(gs) + y, PATTERN)| && ForKey(PATTERN[i], w)
    ensures Present(gs, w) && Scan(Render(gs) + y, PATTERN)[i] == Cut(ValueFor(gs, w), PATTERN[i].width)
  {
    var m := Render(gs) + y;
    var stop := TextStop(gs, y);
    assert Suffix(m, m);
    ScanFinds(gs, y, stop, m, PATTERN, i, w);
  }

  /** The buffer of a field when the pattern and the key search agree. */
  lemma ValueInBuffer(m: string, fields: seq<string>, i: nat, v: string)
    requires i < 7 && fields == Scan(Cstr(m), PATTERN) && NUL !in v && |v| <= WIDTHS[i]
    requires i < |fields| ==> fields[i] == v
    requires KeyValue(m, KEYS[i], WIDTHS[i]) == v
    ensures FieldOf(m, i) == v
  {
    var zeroes := seq(WIDTHS[i] + 1, _ => NUL);
    CstrOfBuffer(v, WIDTHS[i], zeroes);
    CstrOfBuffer(v, WIDTHS[i], Overwrite(zeroes, v));
  }

  /** And when only the key search has written to it. */
  lemma OnlyKeyInBuffer(m: string, fields: seq<string>, i: nat, v: string)
    requires i < 7 && fields == Scan(Cstr(m), PATTERN) && |fields| <= i && KeyValue(m, KEYS[i], WIDTHS[i]) == v
    ensures FieldOf(m, i) == Cstr(v)
  {
    var zeroes := seq(WIDTHS[i] + 1, _ => NUL);
    CstrBeforeZero(v, zeroes[|v|..]);
  }

  lemma CstrBeforeZero(v: string, zeroes: string)
    requires zeroes != "" && zeroes[0] == NUL
    ensures Cstr(v + zeroes) == Cstr(v)
  {
    var n, r := EndOfRun(v, NUL, 0), EndOfRun(v + zeroes, NUL, 0);
    assert (v + zeroes)[n] == NUL;
    forall i | 0 <= i < n ensures (v + zeroes)[i] != NUL { assert (v + zeroes)[i] == v[i]; }
    assert (v + zeroes)[..n] == v[..n];
  }

  lemma PlainCut(fs: seq<Field>, w: string, width: nat)
    requires Parts(fs)
    ensures NUL !in Cut(ValueFor(fs, w), width)
  {
    if Present(fs, w) {
      var j :| 0 <= j < |fs| && fs[j].key == w;
      ValueOfField(fs, j);
    } else {
      AbsentValue(fs, w);
    }
  }

  /** The fallback never copies a date: its search for the end of the value stops inside the key. */
  lemma DatesAreNotRecovered(s: string, width: nat)
    ensures KeyValue(s, "submit date:", width) == "" && KeyValue(s, "done date:", width) == ""
  {
    var a, b := Find(s, "submit date:", 0), Find(s, "done date:", 0);
    if a != -1 { assert s[a + 6] == s[a..a + 12][6] == ' '; }
    if b != -1 { assert s[b + 4] == s[b..b + 10][4] == ' '; }
  }
}
