/** The receipts the server prints are parsed back to what was printed. */
module ReceiptRoundTrip {
  import opened Common
  import opened Scanning
  import opened Receipt
  import ReceiptFields

  datatype Report = Report(id: string, dlvrd: string, submitDate: string, doneDate: string, stat: string,
                           err: nat, text: string)

  // ------------------------------------------------------------------ the printer

  function HexDigit(n: nat): (c: char)
    requires n < 16
    ensures HexValueOf(c) == n && c != ' ' && c != ':' && c != NUL && c != '-' && c != '+' && !IsSpace(c) && c != 'x' && c != 'X'
  {
    if n < 10 then '0' + n as char else 'a' + (n - 10) as char
  }

  function Hex(n: nat): (h: string)
    ensures h != "" && forall i :: 0 <= i < |h| ==> exists d: nat :: d < 16 && h[i] == HexDigit(d)
  {
    (if n < 16 then "" else Hex(n / 16)) + [HexDigit(n % 16)]
  }

  /** printf's %03x. */
  function Hex3(n: nat): string {
    if n < 16 then "00" + Hex(n) else if n < 256 then "0" + Hex(n) else Hex(n)
  }

  function FromErr(r: Report): string { "err:" + (Hex3(r.err) + (" " + ("text:" + r.text))) }
  function FromStat(r: Report): string { "stat:" + (r.stat + (" " + FromErr(r))) }
  function FromDone(r: Report): string { "done" + (" " + ("date:" + (r.doneDate + (" " + FromStat(r))))) }
  function FromSubmit(r: Report): string { "submit" + (" " + ("date:" + (r.submitDate + (" " + FromDone(r))))) }
  function FromDlvrd(r: Report): string { "dlvrd:" + (r.dlvrd + (" " + FromSubmit(r))) }
  function FromSub(r: Report): string { "sub:" + ("001" + (" " + FromDlvrd(r))) }

  /** "id:%S sub:001 dlvrd:%S submit date:%s done date:%s stat:%S err:%03x text:%S" */
  function Print(r: Report): string { "id:" + (r.id + (" " + FromSub(r))) }

  /** What follows a value: the label and the rest. */
  lemma Labels(x: string)
    ensures " " + ("sub:" + ("001" + (" " + ("dlvrd:" + x)))) == " sub:001 dlvrd:" + x
    ensures " " + ("submit" + (" " + ("date:" + x))) == " submit date:" + x
    ensures " " + ("done" + (" " + ("date:" + x))) == " done date:" + x
    ensures " " + ("stat:" + x) == " stat:" + x
    ensures " " + ("err:" + x) == " err:" + x
    ensures " " + ("text:" + x) == " text:" + x
  {
  }

  lemma PrintedEnd(r: Report)
    ensures " " + FromStat(r) == " stat:" + (r.stat + (" err:" + (Hex3(r.err) + (" text:" + r.text))))
  {
    Labels(r.text);
    Labels(Hex3(r.err) + (" text:" + r.text));
    Labels(r.stat + (" " + FromErr(r)));
  }

  lemma PrintedDates(r: Report)
    ensures " " + FromSubmit(r)
         == " submit date:" + (r.submitDate + (" done date:" + (r.doneDate + (" " + FromStat(r)))))
  {
    Labels(r.doneDate + (" " + FromStat(r)));
    Labels(r.submitDate + (" " + FromDone(r)));
  }

  /** The printed receipt in one piece. */
  lemma PrintedText(r: Report)
    ensures Print(r)
         == "id:" + (r.id + (" sub:001 dlvrd:" + (r.dlvrd + (" submit date:" + (r.submitDate + (" done date:" + (r.doneDate
            + (" stat:" + (r.stat + (" err:" + (Hex3(r.err) + (" text:" + r.text))))))))))))
  {
    PrintedEnd(r);
    PrintedDates(r);
    Labels(r.dlvrd + (" " + FromSubmit(r)));
  }

  // ------------------------------------------------------------------ what is printed

  /** One to `width` octets that sscanf takes up to the next blank. */
  predicate Token(v: string, width: nat) {
    0 < |v| <= width && forall i :: 0 <= i < |v| ==> v[i] != ' ' && v[i] != NUL
  }

  predicate Date(v: string) {
    0 < |v| <= 14 && forall i :: 0 <= i < |v| ==> IsDigit(v[i])
  }

  /** No "text:" inside, in either case. */
  predicate Free(v: string) {
    forall p :: 0 <= p <= |v| ==> !At(Lower(v), "text:", p)
  }

  predicate Printable(r: Report) {
    && Token(r.id, 64) && Free(r.id) && Token(r.dlvrd, 3) && Date(r.submitDate) && Date(r.doneDate)
    && Token(r.stat, 15) && Free(r.stat)
  }

  // ------------------------------------------------------------------ the pattern matches

  lemma {:induction false} SpanIs(v: string, tail: string, item: Item, width: nat)
    requires |v| <= width && (forall i :: 0 <= i < |v| ==> Accepts(item, v[i]))
    requires |v| == width || (tail != "" && tail[0] == ' ')
    ensures Span(v + tail, item, width) == |v|
    decreases width
  {
    if v == "" {
      assert v + tail == tail;
    } else {
      assert (v + tail)[1..] == v[1..] + tail;
      SpanIs(v[1..], tail, item, width - 1);
    }
  }

  lemma StripWord(word: string, rest: string)
    ensures Strip(word + rest, word) == (true, rest)
  {
    assert (word + rest)[..|word|] == word && (word + rest)[|word|..] == rest;
  }

  lemma SkipOne(s: string)
    requires s != "" && !IsSpace(s[0])
    ensures SkipSpaces(" " + s) == s
  {
    assert (" " + s)[1..] == s;
  }

  /** One item with a single literal. */
  lemma ScanItem(item: Item, v: string, next: string, items: seq<Item>)
    requires items != [] && items[0] == item && item.second == "" && 0 < |v| <= item.width
    requires forall i :: 0 <= i < |v| ==> Accepts(item, v[i])
    requires next != "" && !IsSpace(next[0])
    ensures Scan(item.first + (v + (" " + next)), items) == [v] + Scan(next, items[1..])
  {
    var tail := " " + next;
    StripWord(item.first, v + tail);
    SpanIs(v, tail, item, item.width);
    assert (v + tail)[..|v|] == v && (v + tail)[|v|..] == tail;
    SkipOne(next);
  }

  /** One item of two words. */
  lemma ScanDate(item: Item, v: string, next: string, items: seq<Item>)
    requires items != [] && items[0] == item && item.second == "date:" && 0 < |v| <= item.width && item.digits
    requires forall i :: 0 <= i < |v| ==> IsDigit(v[i])
    requires next != "" && !IsSpace(next[0])
    ensures Scan(item.first + (" " + ("date:" + (v + (" " + next)))), items) == [v] + Scan(next, items[1..])
  {
    var tail := " " + next;
    var value := "date:" + (v + tail);
    StripWord(item.first, " " + value);
    assert value[0] == 'd';
    SkipOne(value);
    StripWord("date:", v + tail);
    SpanIs(v, tail, item, item.width);
    assert (v + tail)[..|v|] == v && (v + tail)[|v|..] == tail;
    SkipOne(next);
  }

  function Fields(r: Report): seq<string> {
    [r.id, "001", r.dlvrd, r.submitDate, r.doneDate, r.stat, Cut(Hex3(r.err), 3)]
  }

  const DIGITS: string := "0123456789abcdef"

  lemma DigitIsItsPlace(n: nat)
    requires n < 16
    ensures HexDigit(n) == DIGITS[n]
  {
  }

  /** An error code below 0x1000 is printed as its three hexadecimal digits, in lower case. */
  lemma ErrPrinted(n: nat)
    requires n <= 0xFFF
    ensures Hex3(n) == [DIGITS[n / 256], DIGITS[n / 16 % 16], DIGITS[n % 16]]
  {
    HexIsThree(n);
    DigitIsItsPlace(n / 256);
    DigitIsItsPlace(n / 16 % 16);
    DigitIsItsPlace(n % 16);
  }

  /** A greater one as its digits, the first of them not 0: reading them as places gives it back. */
  function Places(h: string): nat {
    if h == "" then 0
    else
      var c := h[|h| - 1];
      16 * Places(h[..|h| - 1])
      + if '0' <= c <= '9' then c as int - '0' as int else if 'a' <= c <= 'f' then c as int - 'a' as int + 10 else 0
  }

  lemma {:induction false} HexIsPlaces(n: nat)
    ensures Places(Hex(n)) == n && (n > 0 ==> Hex(n)[0] != '0')
    ensures n > 0xFFF ==> Hex3(n) == Hex(n)
    decreases n
  {
    var h, c := Hex(n), HexDigit(n % 16);
    assert h[|h| - 1] == c && h[..|h| - 1] == if n < 16 then "" else Hex(n / 16);
    DigitIsItsPlace(n % 16);
    if n >= 16 { HexIsPlaces(n / 16); }
  }

  lemma {:induction false} HexIsThree(n: nat)
    requires n <= 0xFFF
    ensures Hex3(n) == [HexDigit(n / 256), HexDigit(n / 16 % 16), HexDigit(n % 16)]
  {
    assert HexDigit(0) == '0';
    if n >= 256 {
      assert Hex(n) == Hex(n / 16) + [HexDigit(n % 16)];
      assert Hex(n / 16) == Hex(n / 16 / 16) + [HexDigit(n / 16 % 16)];
      assert n / 16 / 16 == n / 256 < 16;
    } else if n >= 16 {
      assert Hex(n) == Hex(n / 16) + [HexDigit(n % 16)];
    }
  }

  /** What is scanned from field `k` on. */
  predicate ScansFrom(r: Report, s: string, k: nat) {
    k <= 6 && Scan(s, PATTERN[k..]) == Fields(r)[k..]
  }

  lemma FromIndex<T>(l: seq<T>, k: nat)
    requires k < |l|
    ensures l[k..][0] == l[k] && l[k..][1..] == l[k + 1..] && l[k..] == [l[k]] + l[k + 1..]
  {
  }

  lemma HexIsLong(n: nat)
    ensures |Hex3(n)| >= 3 && Cut(Hex3(n), 3) == Hex3(n)[..3]
    ensures forall i :: 0 <= i < 3 ==> HexValueOf(Hex3(n)[i]) >= 0 && Hex3(n)[i] != ' ' && Hex3(n)[i] != NUL && !IsSpace(Hex3(n)[i])
  {
    assert HexDigit(0) == '0';
    if n >= 256 {
      assert Hex(n) == Hex(n / 16) + [HexDigit(n % 16)];
      assert Hex(n / 16) == Hex(n / 16 / 16) + [HexDigit(n / 16 % 16)];
    } else if n >= 16 {
      assert Hex(n) == Hex(n / 16) + [HexDigit(n % 16)];
    }
  }

  lemma {:induction false} SpanIsFull(v: string, item: Item, width: nat)
    requires |v| >= width && forall i :: 0 <= i < width ==> Accepts(item, v[i])
    ensures Span(v, item, width) == width
    decreases width
  {
    if width > 0 {
      SpanIsFull(v[1..], item, width - 1);
    }
  }

  /** The last field takes three digits of the error code, however long it is. */
  lemma ScanErr(r: Report, text: string)
    ensures ScansFrom(r, "err:" + (Hex3(r.err) + (" " + text)), 6)
  {
    HexIsLong(r.err);
    var items, v := PATTERN[6..], Hex3(r.err) + (" " + text);
    FromIndex(PATTERN, 6);
    FromIndex(Fields(r), 6);
    assert PATTERN[6] == Item("err:", "", false, 3);
    StripWord("err:", v);
    assert forall i :: 0 <= i < 3 ==> v[i] == Hex3(r.err)[i];
    SpanIsFull(v, items[0], 3);
    assert v[..3] == Hex3(r.err)[..3];
    assert items[1..] == [];
  }

  lemma ScanStat(r: Report, next: string)
    requires Token(r.stat, 15) && ScansFrom(r, next, 6) && next != "" && !IsSpace(next[0])
    ensures ScansFrom(r, "stat:" + (r.stat + (" " + next)), 5)
  {
    var items := PATTERN[5..];
    FromIndex(PATTERN, 5);
    FromIndex(Fields(r), 5);
    assert PATTERN[5] == Item("stat:", "", false, 15);
    ScanItem(items[0], r.stat, next, items);
  }

  lemma ScanDone(r: Report, next: string)
    requires Date(r.doneDate) && ScansFrom(r, next, 5) && next != "" && !IsSpace(next[0])
    ensures ScansFrom(r, "done" + (" " + ("date:" + (r.doneDate + (" " + next)))), 4)
  {
    var items := PATTERN[4..];
    FromIndex(PATTERN, 4);
    FromIndex(Fields(r), 4);
    assert PATTERN[4] == Item("done", "date:", true, 14);
    ScanDate(items[0], r.doneDate, next, items);
  }

  lemma ScanSubmit(r: Report, next: string)
    requires Date(r.submitDate) && ScansFrom(r, next, 4) && next != "" && !IsSpace(next[0])
    ensures ScansFrom(r, "submit" + (" " + ("date:" + (r.submitDate + (" " + next)))), 3)
  {
    var items := PATTERN[3..];
    FromIndex(PATTERN, 3);
    FromIndex(Fields(r), 3);
    assert PATTERN[3] == Item("submit", "date:", true, 14);
    ScanDate(items[0], r.submitDate, next, items);
  }

  lemma ScanDlvrd(r: Report, next: string)
    requires Token(r.dlvrd, 3) && ScansFrom(r, next, 3) && next != "" && !IsSpace(next[0])
    ensures ScansFrom(r, "dlvrd:" + (r.dlvrd + (" " + next)), 2)
  {
    var items := PATTERN[2..];
    FromIndex(PATTERN, 2);
    FromIndex(Fields(r), 2);
    assert PATTERN[2] == Item("dlvrd:", "", false, 3);
    ScanItem(items[0], r.dlvrd, next, items);
  }

  lemma ScanSub(r: Report, next: string)
    requires ScansFrom(r, next, 2) && next != "" && !IsSpace(next[0])
    ensures ScansFrom(r, "sub:" + ("001" + (" " + next)), 1)
  {
    var items := PATTERN[1..];
    FromIndex(PATTERN, 1);
    FromIndex(Fields(r), 1);
    assert PATTERN[1] == Item("sub:", "", false, 3);
    ScanItem(items[0], "001", next, items);
  }

  lemma ScanId(r: Report, next: string)
    requires Token(r.id, 64) && ScansFrom(r, next, 1) && next != "" && !IsSpace(next[0])
    ensures ScansFrom(r, "id:" + (r.id + (" " + next)), 0)
  {
    var items := PATTERN[0..];
    FromIndex(PATTERN, 0);
    FromIndex(Fields(r), 0);
    assert PATTERN[0] == Item("id:", "", false, 64);
    ScanItem(items[0], r.id, next, items);
  }

  /** The pattern takes all seven fields of a printed receipt. */
  lemma ScanPrinted(r: Report)
    requires Printable(r)
    ensures Scan(Print(r), PATTERN) == Fields(r)
  {
    ScanErr(r, "text:" + r.text);
    ScanStat(r, FromErr(r));
    ScanDone(r, FromStat(r));
    ScanSubmit(r, FromDone(r));
    ScanDlvrd(r, FromSubmit(r));
    ScanSub(r, FromDlvrd(r));
    ScanId(r, FromSub(r));
    assert PATTERN[0..] == PATTERN && Fields(r)[0..] == Fields(r);
  }

  // ------------------------------------------------------------------ NULs in the text

  predicate NoNul(s: string) {
    forall i :: 0 <= i < |s| ==> s[i] != NUL
  }

  lemma CstrField(tag: string, v: string, next: string)
    requires NoNul(tag) && NoNul(v)
    ensures Cstr(tag + (v + (" " + next))) == tag + (v + (" " + Cstr(next)))
  {
    CstrAfter(tag, v + (" " + next));
    CstrAfter(v, " " + next);
    CstrAfter(" ", next);
  }

  lemma CstrDate(tag: string, v: string, next: string)
    requires NoNul(tag) && NoNul(v)
    ensures Cstr(tag + (" " + ("date:" + (v + (" " + next))))) == tag + (" " + ("date:" + (v + (" " + Cstr(next)))))
  {
    CstrAfter(tag, " " + ("date:" + (v + (" " + next))));
    CstrAfter(" ", "date:" + (v + (" " + next)));
    CstrField("date:", v, next);
  }

  lemma HexHasNoNul(n: nat)
    ensures NoNul(Hex3(n))
  {
    assert forall i :: 0 <= i < |Hex(n)| ==> Hex(n)[i] != NUL;
  }

  /** sscanf sees the receipt with its text cut at the first NUL. */
  lemma CstrPrinted(r: Report)
    requires Printable(r)
    ensures Cstr(Print(r)) == Print(r.(text := Cstr(r.text)))
  {
    var t := r.(text := Cstr(r.text));
    CstrEnd(r, t);
    CstrDates(r, t);
    CstrBeginning(r, t);
  }

  lemma CstrEnd(r: Report, t: Report)
    requires Token(r.stat, 15) && t == r.(text := Cstr(r.text))
    ensures Cstr(FromStat(r)) == FromStat(t)
  {
    HexHasNoNul(r.err);
    CstrAfter("text:", r.text);
    CstrField("err:", Hex3(r.err), "text:" + r.text);
    CstrField("stat:", r.stat, FromErr(r));
  }

  lemma CstrBeginning(r: Report, t: Report)
    requires Token(r.id, 64) && Token(r.dlvrd, 3) && t == r.(text := Cstr(r.text))
    requires Cstr(FromSubmit(r)) == FromSubmit(t)
    ensures Cstr(Print(r)) == Print(t)
  {
    CstrField("dlvrd:", r.dlvrd, FromSubmit(r));
    CstrField("sub:", "001", FromDlvrd(r));
    CstrField("id:", r.id, FromSub(r));
  }

  lemma CstrDates(r: Report, t: Report)
    requires Date(r.submitDate) && Date(r.doneDate) && t == r.(text := Cstr(r.text))
    requires Cstr(FromStat(r)) == FromStat(t)
    ensures Cstr(FromSubmit(r)) == FromSubmit(t)
  {
    CstrDate("done", r.doneDate, FromStat(r));
    CstrDate("submit", r.submitDate, FromDone(r));
  }

  // ------------------------------------------------------------------ the search for the text

  lemma LowerConcat(a: string, b: string)
    ensures Lower(a + b) == Lower(a) + Lower(b)
  {
  }

  /** A blank that is not in the pattern separates the search. */
  lemma FindShift(a: string, b: string, pat: string)
    requires pat != "" && ' ' !in pat && Find(b, pat, 0) >= 0
    requires forall p :: 0 <= p <= |a| ==> !At(a, pat, p)
    ensures Find(a + (" " + b), pat, 0) == |a| + 1 + Find(b, pat, 0)
  {
    var f := Find(b, pat, 0);
    ShiftedFind(a, b, a + (" " + b), pat, f);
  }

  lemma ShiftedFind(a: string, b: string, s: string, pat: string, f: nat)
    requires pat != "" && ' ' !in pat && Find(b, pat, 0) == f && s == a + (" " + b)
    requires forall p :: 0 <= p <= |a| ==> !At(a, pat, p)
    ensures Find(s, pat, 0) == |a| + 1 + f
  {
    NoneBefore(a, b, pat);
    ShiftedMatch(a, b, pat, f);
    FindIs(s, pat, |a| + 1 + f);
  }

  lemma ShiftedMatch(a: string, b: string, pat: string, q: nat)
    ensures At(b, pat, q) <==> At(a + (" " + b), pat, |a| + 1 + q)
  {
    AtSuffix(a + " ", b, pat, q);
    assert a + (" " + b) == (a + " ") + b;
  }

  lemma NoneBefore(a: string, b: string, pat: string)
    requires pat != "" && ' ' !in pat && Find(b, pat, 0) >= 0
    requires forall p :: 0 <= p <= |a| ==> !At(a, pat, p)
    ensures forall p :: 0 <= p < |a| + 1 + Find(b, pat, 0) ==> !At(a + (" " + b), pat, p)
  {
    forall p | 0 <= p < |a| + 1 + Find(b, pat, 0) ensures !At(a + (" " + b), pat, p) {
      if p <= |a| { NotBefore(a, b, pat, p); } else { NotWithin(a, b, pat, p); }
    }
  }

  lemma NotWithin(a: string, b: string, pat: string, p: nat)
    requires |a| < p < |a| + 1 + Find(b, pat, 0)
    ensures !At(a + (" " + b), pat, p)
  {
    assert !At(b, pat, p - |a| - 1);
    ShiftedMatch(a, b, pat, p - |a| - 1);
  }

  lemma NotBefore(a: string, b: string, pat: string, p: nat)
    requires pat != "" && ' ' !in pat && p <= |a|
    requires forall q :: 0 <= q <= |a| ==> !At(a, pat, q)
    ensures !At(a + (" " + b), pat, p)
  {
    var s := a + (" " + b);
    AtPrefix(a, " " + b, pat, p);
    AtOctets(s, pat, p);
    assert s[|a|] == ' ';
  }

  lemma FindPast(w: string, rest: string)
    requires Free(w) && TextAt(rest) >= 0
    ensures TextAt(w + (" " + rest)) == |w| + 1 + TextAt(rest)
  {
    LowerConcat(w, " " + rest);
    LowerConcat(" ", rest);
    assert Lower(" ") == " ";
    FindShift(Lower(w), Lower(rest), "text:");
  }

  lemma TextPast(w: string, rest: string)
    requires Free(w) && TextAt(rest) >= 0
    ensures TextOf(w + (" " + rest)) == TextOf(rest) && TextAt(w + (" " + rest)) >= 0
  {
    FindPast(w, rest);
    TextMoves(w, rest, TextAt(rest));
  }

  lemma TextMoves(w: string, rest: string, at: nat)
    requires TextAt(rest) == at && TextAt(w + (" " + rest)) == |w| + 1 + at
    ensures TextOf(w + (" " + rest)) == TextOf(rest)
  {
    TextOfIs(rest, at);
    TextOfIs(w + (" " + rest), |w| + 1 + at);
    SameText(w, rest, at + 5);
  }

  lemma TextOfIs(s: string, at: nat)
    requires TextAt(s) == at
    ensures at + 5 <= |s| && TextOf(s) == TextFrom(s, at + 5)
  {
  }

  lemma SameText(w: string, rest: string, from: nat)
    requires from <= |rest|
    ensures TextFrom(w + (" " + rest), |w| + 1 + from) == TextFrom(rest, from)
  {
    var s := w + (" " + rest);
    assert s == (w + " ") + rest;
    EndOfRunBeyond(w + " ", rest, NUL, from);
    SliceBeyond(w + " ", rest, from, EndOfRun(rest, NUL, from));
  }

  /** "text:" in whatever case. */
  predicate TextLabel(k: string) {
    |k| == 5 && (k[0] == 't' || k[0] == 'T') && (k[1] == 'e' || k[1] == 'E') && (k[2] == 'x' || k[2] == 'X')
    && (k[3] == 't' || k[3] == 'T') && k[4] == ':'
  }

  lemma TextHere(k: string, t: string)
    requires TextLabel(k)
    ensures TextAt(k + t) == 0 && TextOf(k + t) == Cut(Cstr(t), TEXT_WIDTH)
  {
    LowerConcat(k, t);
    assert Lower(k) == "text:";
    assert Lower(k + t)[0..5] == "text:" && At(Lower(k + t), "text:", 0);
    var end := EndOfRun(t, NUL, 0);
    EndOfRunBeyond(k, t, NUL, 0);
    SliceBeyond(k, t, 0, end);
  }

  /** A tag in which "text:" cannot begin. */
  predicate Blocks(tag: string) {
    forall p {:trigger tag[p]} :: 0 <= p < |tag| ==>
      tag[p] != 't' || (p + 1 < |tag| && tag[p + 1] != 'e') || (p + 2 < |tag| && tag[p + 2] != 'x')
  }

  predicate LowerCase(tag: string) {
    forall p :: 0 <= p < |tag| ==> LowerChar(tag[p]) == tag[p]
  }

  lemma TextOctets(low: string, p: nat)
    ensures At(low, "text:", p) ==> p + 5 <= |low| && low[p] == 't' && low[p + 1] == 'e' && low[p + 2] == 'x' && low[p + 4] == ':'
  {
    if At(low, "text:", p) {
      var found := low[p..p + 5];
      assert found[0] == low[p] && found[1] == low[p + 1] && found[2] == low[p + 2] && found[4] == low[p + 4];
    }
  }

  lemma NotInLabel(tag: string, v: string, p: nat)
    requires Blocks(tag) && LowerCase(tag) && p < |tag|
    ensures !At(Lower(tag + v), "text:", p)
  {
    LowerConcat(tag, v);
    var low := Lower(tag + v);
    assert low[p] == tag[p];
    assert p + 1 < |tag| ==> low[p + 1] == tag[p + 1];
    assert p + 2 < |tag| ==> low[p + 2] == tag[p + 2];
    TextOctets(low, p);
  }

  lemma InValue(tag: string, v: string, p: nat)
    requires p >= |tag|
    ensures At(Lower(tag + v), "text:", p) ==> At(Lower(v), "text:", p - |tag|)
  {
    LowerConcat(tag, v);
    AtSuffix(Lower(tag), Lower(v), "text:", p - |tag|);
  }

  lemma LabelFree(tag: string, v: string)
    requires Free(v) && Blocks(tag) && LowerCase(tag)
    ensures Free(tag + v)
  {
    forall p | 0 <= p <= |tag + v| ensures !At(Lower(tag + v), "text:", p) {
      if p < |tag| { NotInLabel(tag, v, p); } else { InValue(tag, v, p); }
    }
  }

  lemma NoColonFree(v: string)
    requires forall i :: 0 <= i < |v| ==> v[i] != ':'
    ensures Free(v)
  {
    assert forall i :: 0 <= i < |v| ==> Lower(v)[i] != ':';
    forall p | 0 <= p <= |v| ensures !At(Lower(v), "text:", p) {
      TextOctets(Lower(v), p);
    }
  }

  lemma ShortFree(v: string)
    requires |v| < 5
    ensures Free(v)
  {
  }

  lemma FieldPast(tag: string, v: string, next: string)
    requires Free(v) && Blocks(tag) && LowerCase(tag) && TextAt(next) >= 0
    ensures TextOf(tag + (v + (" " + next))) == TextOf(next) && TextAt(tag + (v + (" " + next))) >= 0
  {
    LabelFree(tag, v);
    TextPast(tag + v, next);
    assert tag + (v + (" " + next)) == (tag + v) + (" " + next);
  }

  lemma DatePast(tag: string, v: string, next: string)
    requires Date(v) && (forall i :: 0 <= i < |tag| ==> tag[i] != ':') && TextAt(next) >= 0
    ensures var s := tag + (" " + ("date:" + (v + (" " + next)))); TextOf(s) == TextOf(next) && TextAt(s) >= 0
  {
    NoColonFree(v);
    NoColonFree(tag);
    FieldPast("date:", v, next);
    TextPast(tag, "date:" + (v + (" " + next)));
  }

  lemma ErrPast(n: nat, next: string)
    requires TextAt(next) >= 0
    ensures var s := "err:" + (Hex3(n) + (" " + next)); TextOf(s) == TextOf(next) && TextAt(s) >= 0
  {
    assert forall i :: 0 <= i < |Hex(n)| ==> Hex(n)[i] != ':';
    NoColonFree(Hex3(n));
    FieldPast("err:", Hex3(n), next);
  }

  lemma StatPast(v: string, next: string)
    requires Free(v) && TextAt(next) >= 0
    ensures var s := "stat:" + (v + (" " + next)); TextOf(s) == TextOf(next) && TextAt(s) >= 0
  {
    FieldPast("stat:", v, next);
  }

  lemma DlvrdPast(v: string, next: string)
    requires |v| < 5 && TextAt(next) >= 0
    ensures var s := "dlvrd:" + (v + (" " + next)); TextOf(s) == TextOf(next) && TextAt(s) >= 0
  {
    ShortFree(v);
    FieldPast("dlvrd:", v, next);
  }

  lemma SubPast(next: string)
    requires TextAt(next) >= 0
    ensures var s := "sub:" + ("001" + (" " + next)); TextOf(s) == TextOf(next) && TextAt(s) >= 0
  {
    ShortFree("001");
    FieldPast("sub:", "001", next);
  }

  lemma IdPast(v: string, next: string)
    requires Free(v) && TextAt(next) >= 0
    ensures var s := "id:" + (v + (" " + next)); TextOf(s) == TextOf(next) && TextAt(s) >= 0
  {
    FieldPast("id:", v, next);
  }

  /** The text found in a printed receipt is the one printed, cut at 64 octets or a NUL. */
  lemma TextOfPrinted(r: Report)
    requires Printable(r)
    ensures TextOf(Print(r)) == Cut(Cstr(r.text), TEXT_WIDTH)
  {
    TextHere("text:", r.text);
    PastEnd(r);
    PastDates(r);
    PastBeginning(r);
  }

  lemma PastEnd(r: Report)
    requires Free(r.stat)
    ensures TextOf(FromStat(r)) == TextOf("text:" + r.text) && TextAt(FromStat(r)) >= 0
  {
    TextHere("text:", r.text);
    ErrPast(r.err, "text:" + r.text);
    StatPast(r.stat, FromErr(r));
  }

  lemma PastDates(r: Report)
    requires Date(r.submitDate) && Date(r.doneDate) && TextAt(FromStat(r)) >= 0
    ensures TextOf(FromSubmit(r)) == TextOf(FromStat(r)) && TextAt(FromSubmit(r)) >= 0
  {
    DatePast("done", r.doneDate, FromStat(r));
    DatePast("submit", r.submitDate, FromDone(r));
  }

  lemma PastBeginning(r: Report)
    requires Free(r.id) && |r.dlvrd| < 5 && TextAt(FromSubmit(r)) >= 0
    ensures TextOf(Print(r)) == TextOf(FromSubmit(r))
  {
    DlvrdPast(r.dlvrd, FromSubmit(r));
    SubPast(FromDlvrd(r));
    IdPast(r.id, FromSub(r));
  }

  // ------------------------------------------------------------------ the round trip

  lemma FieldOfScanned(s: string, fields: seq<string>, i: nat)
    requires Scan(Cstr(s), PATTERN) == fields && |fields| == 7 && i < 7
    requires |fields[i]| <= WIDTHS[i] && NUL !in fields[i]
    ensures FieldOf(s, i) == fields[i]
  {
    var width := WIDTHS[i];
    ReceiptFields.CstrOfBuffer(fields[i], width, seq(width + 1, _ => NUL));
  }

  lemma FieldFits(r: Report, i: nat)
    requires Printable(r) && i < 7
    ensures |Fields(r)[i]| <= WIDTHS[i] && NUL !in Fields(r)[i]
  {
    HexIsLong(r.err);
  }

  lemma FieldOfPrinted(r: Report, s: string, i: nat)
    requires Printable(r) && s == Print(r) && i < 7
    ensures FieldOf(s, i) == Fields(r)[i]
  {
    CstrPrinted(r);
    ScanPrinted(r.(text := Cstr(r.text)));
    FieldFits(r, i);
    FieldOfScanned(s, Fields(r), i);
  }

  lemma ThreeHexDigits(h: string)
    requires |h| == 3 && forall i :: 0 <= i < 3 ==> HexValueOf(h[i]) >= 0
    ensures HexDigits(h, 0) == 256 * HexValueOf(h[0]) + 16 * HexValueOf(h[1]) + HexValueOf(h[2])
  {
    var t, u := h[1..], h[2..];
    assert t[1..] == u && u[1..] == "" && u[0] == h[2] && t[0] == h[1];
    assert HexDigits(u, 16 * HexValueOf(h[0]) + HexValueOf(h[1]))
        == HexDigits("", 16 * (16 * HexValueOf(h[0]) + HexValueOf(h[1])) + HexValueOf(h[2]));
    assert HexDigits(h, 0) == HexDigits(t, HexValueOf(h[0]));
  }

  lemma StrtolOfThree(h: string)
    requires |h| == 3 && forall i :: 0 <= i < 3 ==> HexValueOf(h[i]) >= 0
    ensures Strtol16(h) == HexDigits(h, 0) && 0 <= Strtol16(h) <= 0xFFF
  {
    HexIsNoSign(h[0]);
    HexIsNoSign(h[1]);
    HexIsNoSign(h[2]);
    StrtolPlain(h);
    HexOfThree(h);
  }

  lemma HexOfThree(h: string)
    requires |h| == 3 && forall i :: 0 <= i < 3 ==> 0 <= HexValueOf(h[i]) < 16
    ensures 0 <= HexDigits(h, 0) <= 0xFFF && HexDigits(h, 0) % 0x1_0000_0000 == HexDigits(h, 0)
  {
    ThreeHexDigits(h);
    SmallStays(HexValueOf(h[0]), HexValueOf(h[1]), HexValueOf(h[2]));
  }

  lemma SmallStays(a: int, b: int, c: int)
    requires 0 <= a < 16 && 0 <= b < 16 && 0 <= c < 16
    ensures var n := 256 * a + 16 * b + c; 0 <= n <= 0xFFF && n % 0x1_0000_0000 == n
  {
  }

  lemma HexIsNoSign(c: char)
    requires HexValueOf(c) >= 0
    ensures !IsSpace(c) && c != '-' && c != '+' && c != 'x' && c != 'X' && HexValueOf(c) < 16
  {
  }

  lemma StrtolPlain(h: string)
    requires h != "" && !IsSpace(h[0]) && h[0] != '-' && h[0] != '+' && (|h| > 1 ==> h[1] != 'x' && h[1] != 'X')
    ensures Strtol16(h) == HexDigits(h, 0) % 0x1_0000_0000
  {
    assert SkipSpaces(h) == h;
  }

  lemma ErrReturns(n: nat)
    requires n <= 0xFFF
    ensures Strtol16(Hex3(n)) == n
  {
    var h := Hex3(n);
    HexIsThree(n);
    ThreeDigitsOf(h, n);
    StrtolOfThree(h);
  }

  lemma ThreeDigitsOf(h: string, n: nat)
    requires n <= 0xFFF && h == [HexDigit(n / 256), HexDigit(n / 16 % 16), HexDigit(n % 16)]
    ensures HexDigits(h, 0) == n && forall i :: 0 <= i < 3 ==> HexValueOf(h[i]) >= 0
  {
    ThreeHexDigits(h);
    assert n == 256 * (n / 256) + 16 * (n / 16 % 16) + n % 16;
  }

  lemma ParsedAs(s: string, f: seq<string>, text: string)
    requires |f| == 7 && (forall i: nat :: i < 7 ==> FieldOf(s, i) == f[i]) && TextOf(s) == text
    requires s != "" && f[0] != ""
    ensures Parse(s) == Some(Parsed(f[0], Strtol16(f[1]), Strtol16(f[2]), f[3], f[4], f[5], Strtol16(f[6]), text))
  {
    assert FieldOf(s, 0) == f[0];
  }

  /** The error code that a printed one is read back as: its first three digits. */
  function ErrRead(n: nat): int {
    Strtol16(Cut(Hex3(n), 3))
  }

  /** An error code is read back exactly when it has three digits. A receipt with a negative code has more. */
  lemma ErrReturnsIff(n: nat)
    ensures ErrRead(n) == n <==> n <= 0xFFF
  {
    HexIsLong(n);
    if n <= 0xFFF {
      HexIsThree(n);
      assert Cut(Hex3(n), 3) == Hex3(n);
      ErrReturns(n);
    } else {
      StrtolOfThree(Cut(Hex3(n), 3));
    }
  }

  lemma SubIsOne()
    ensures Strtol16("001") == 1
  {
    StrtolOfThree("001");
    ThreeHexDigits("001");
  }

  /** Printing, then parsing: the fields come back as printed, the numbers as written, and of the text what
      comes before a NUL, up to 64 octets. */
  lemma PrintedReceiptIsParsed(r: Report)
    requires Printable(r)
    ensures Parse(Print(r)) == Some(Parsed(r.id, 1, Strtol16(r.dlvrd), r.submitDate, r.doneDate, r.stat,
                                           ErrRead(r.err), Cut(Cstr(r.text), 64)))
    ensures r.err <= 0xFFF ==> Parse(Print(r)).value.err == r.err
  {
    var s := Print(r);
    forall i: nat | i < 7 ensures FieldOf(s, i) == Fields(r)[i] { FieldOfPrinted(r, s, i); }
    TextOfPrinted(r);
    ErrReturnsIff(r.err);
    SubIsOne();
    ParsedAs(s, Fields(r), Cut(Cstr(r.text), TEXT_WIDTH));
  }

  // ------------------------------------------------------------------ the text after any fields

  lemma FreeJoin(a: string, b: string)
    requires Free(a) && Free(b)
    ensures Free(a + (" " + b))
  {
    var low := Lower(a + (" " + b));
    LowerConcat(a, " " + b);
    LowerConcat(" ", b);
    assert Lower(" ") == " ";
    forall p | 0 <= p <= |low| ensures !At(low, "text:", p) {
      if p <= |a| {
        NotBefore(Lower(a), Lower(b), "text:", p);
      } else {
        ShiftedMatch(Lower(a), Lower(b), "text:", p - |a| - 1);
      }
    }
  }

  lemma KnownTag(k: string)
    requires ReceiptFields.KnownKey(k) && k != "text"
    ensures Blocks(k + ":") && LowerCase(k + ":")
  {
  }

  lemma {:induction false} FieldsFree(fs: seq<ReceiptFields.Field>)
    requires ReceiptFields.WellFormed(fs) && !ReceiptFields.Present(fs, "text")
    ensures Free(ReceiptFields.Render(fs))
    decreases |fs|
  {
    if fs == [] {
      ShortFree("");
    } else {
      KnownTag(fs[0].key);
      NoColonFree(fs[0].value);
      LabelFree(fs[0].key + ":", fs[0].value);
      var first := fs[0].key + ":" + fs[0].value;
      forall i | 0 <= i < |fs[1..]| ensures fs[1..][i].key != "text" { assert fs[i + 1].key != "text"; }
      FieldsFree(fs[1..]);
      if fs[1..] == [] {
        assert ReceiptFields.Render(fs) == first;
      } else {
        FreeJoin(first, ReceiptFields.Render(fs[1..]));
        assert ReceiptFields.Render(fs) == first + (" " + ReceiptFields.Render(fs[1..]));
      }
    }
  }

  /** After fields in any order the text is the one written, cut at 64 octets or a NUL. */
  lemma TextAfterFields(fs: seq<ReceiptFields.Field>, x: string)
    requires ReceiptFields.WellFormed(fs) && !ReceiptFields.Present(fs, "text")
    ensures TextOf(ReceiptFields.Message(fs, Some(x))) == Cut(Cstr(x), 64)
  {
    if fs == [] {
      TextHere("text:", x);
      assert ReceiptFields.Message(fs, Some(x)) == "text:" + x;
    } else {
      FieldsFree(fs);
      TextAfter(ReceiptFields.Message(fs, Some(x)), ReceiptFields.Render(fs), x);
    }
  }

  lemma TextAfter(m: string, body: string, x: string)
    requires Free(body) && m == body + " " + "text:" + x
    ensures TextOf(m) == Cut(Cstr(x), TEXT_WIDTH)
  {
    TextInAnyCase(body, "text:", x);
    assert m == body + (" " + ("text:" + x));
  }

  /** The label may be written in any mixture of cases; the first one counts. */
  lemma TextInAnyCase(body: string, k: string, x: string)
    requires Free(body) && TextLabel(k)
    ensures TextOf(body + (" " + (k + x))) == Cut(Cstr(x), 64)
  {
    TextHere(k, x);
    TextPast(body, k + x);
  }

  // ------------------------------------------------------------------ the id alone

  lemma FirstFieldIsId(id: string, next: string)
    requires Token(id, 64)
    ensures Scan("id:" + (id + (" " + next)), PATTERN) != [] && Scan("id:" + (id + (" " + next)), PATTERN)[0] == id
  {
    var item, tail := PATTERN[0], " " + next;
    StripWord("id:", id + tail);
    SpanIs(id, tail, item, 64);
    assert (id + tail)[..|id|] == id;
  }

  lemma KeySearchFindsId(id: string, next: string)
    requires Token(id, 64)
    ensures KeyValue("id:" + (id + (" " + next)), "id:", 64) == id
  {
    var s := "id:" + (id + (" " + next));
    assert s[0..3] == "id:" && At(s, "id:", 0);
    FindIs(s, "id:", 0);
    assert s[3..] == id + (" " + next);
    ReceiptFields.RunOverKey(s, 0, "id:", id, " " + next);
    ReceiptFields.ValueAfterKey(s, 0, "id:", id, " " + next, 64);
  }

  /** Whatever else is printed after it, and whether or not the pattern matches the rest: the id of a
      printed receipt is the id that is parsed. */
  lemma PrintedIdIsParsed(r: Report)
    requires Token(r.id, 64)
    ensures Parse(Print(r)).Some? && Parse(Print(r)).value.id == r.id
  {
    var s, next := Print(r), FromSub(r);
    CstrField("id:", r.id, next);
    FirstFieldIsId(r.id, Cstr(next));
    KeySearchFindsId(r.id, next);
    IdBuffer(s, r.id);
  }

  lemma IdBuffer(s: string, id: string)
    requires Token(id, 64) && s != "" && Scan(Cstr(s), PATTERN) != [] && Scan(Cstr(s), PATTERN)[0] == id
    requires KeyValue(s, "id:", 64) == id
    ensures FieldOf(s, 0) == id && Parse(s).Some? && Parse(s).value.id == id
  {
    var zeroes := seq(65, _ => NUL);
    ReceiptFields.CstrOfBuffer(id, 64, zeroes);
    ReceiptFields.CstrOfBuffer(id, 64, Overwrite(zeroes, id));
    assert FieldOf(s, 0) == id;
  }

  /** A parsed receipt printed again, with the delivered count the printer chooses. */
  function Again(p: Parsed, dlvrd: string): Report
    requires p.err >= 0
  {
    Report(p.id, dlvrd, p.submitDate, p.doneDate, p.stat, p.err, p.text)
  }

  lemma CutTwice(t: string)
    ensures var cut := Cut(Cstr(t), TEXT_WIDTH); Cut(Cstr(cut), TEXT_WIDTH) == cut
  {
    var cut := Cut(Cstr(t), TEXT_WIDTH);
    assert forall i :: 0 <= i < |cut| ==> cut[i] == t[i] != NUL;
    assert Cstr(cut) == cut;
  }

  /** However long the text and the error code were: a second time through parser and printer changes
      nothing. */
  lemma SecondPassChangesNothing(r: Report)
    requires Printable(r)
    ensures Parse(Print(r)).Some? && Parse(Print(r)).value.err >= 0
    ensures var once := Again(Parse(Print(r)).value, r.dlvrd);
            Parse(Print(once)) == Parse(Print(r)) && Print(Again(Parse(Print(once)).value, r.dlvrd)) == Print(once)
  {
    PrintedReceiptIsParsed(r);
    HexIsLong(r.err);
    StrtolOfThree(Cut(Hex3(r.err), 3));
    var once := Again(Parse(Print(r)).value, r.dlvrd);
    CutTwice(r.text);
    PrintedReceiptIsParsed(once);
    ErrReturnsIff(once.err);
  }
}
