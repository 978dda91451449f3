/** The C library and octet-string routines that the receipt parser is built from. */
module Scanning {
  import opened Common

  predicate IsSpace(c: char) {
    c == ' ' || c == '\t' || c == '\n' || c == '\r' || c == 11 as char || c == 12 as char
  }

  const NUL: char := 0 as char

  function Cut(s: string, width: nat): string { s[..Min(width, |s|)] }

  predicate At(s: string, pat: string, i: int) {
    0 <= i <= |s| - |pat| && s[i..i + |pat|] == pat
  }

  lemma AtOctets(s: string, pat: string, p: int)
    ensures At(s, pat, p) ==> forall j {:trigger s[j]} :: p <= j < p + |pat| ==> s[j] == pat[j - p]
  {
    if At(s, pat, p) {
      assert forall j {:trigger s[j]} :: p <= j < p + |pat| ==> s[j] == s[p..p + |pat|][j - p];
    }
  }

  lemma AtPrefix(a: string, b: string, pat: string, p: int)
    ensures p + |pat| <= |a| ==> (At(a + b, pat, p) <==> At(a, pat, p))
  {
    if 0 <= p <= |a| - |pat| {
      assert (a + b)[p..p + |pat|] == a[p..p + |pat|];
    }
  }

  lemma AtSuffix(a: string, b: string, pat: string, q: nat)
    ensures At(b, pat, q) <==> At(a + b, pat, |a| + q)
  {
    if q + |pat| <= |b| {
      assert (a + b)[|a| + q..|a| + q + |pat|] == b[q..q + |pat|];
    }
  }

  // ------------------------------------------------------------------ searching

  /** The first place from `pos` on where `pat` is found, or -1. */
  function Find(s: string, pat: string, pos: nat): (r: int)
    ensures r == -1 || (pos <= r && At(s, pat, r))
    ensures forall i :: pos <= i && (r == -1 || i < r) ==> !At(s, pat, i)
    decreases |s| - pos
  {
    if pos > |s| - |pat| then -1
    else if s[pos..pos + |pat|] == pat then pos
    else Find(s, pat, pos + 1)
  }

  /** A part in which a pattern does not begin puts the search off. */
  lemma FindBeyond(head: string, x: string, pat: string)
    requires pat != "" && forall p :: 0 <= p < |head| ==> !At(head + x, pat, p)
    ensures Find(head + x, pat, 0) == if Find(x, pat, 0) == -1 then -1 else |head| + Find(x, pat, 0)
  {
    var f, r := Find(x, pat, 0), Find(head + x, pat, 0);
    if f >= 0 { AtSuffix(head, x, pat, f); }
    if r >= 0 { AtSuffix(head, x, pat, r - |head|); }
  }

  lemma FindIs(s: string, pat: string, at: nat)
    requires At(s, pat, at) && forall p :: 0 <= p < at ==> !At(s, pat, p)
    ensures Find(s, pat, 0) == at
  {
  }

  /** octstr_search. */
  method Search(s: string, pat: string, pos: nat) returns (r: int)
    ensures r == Find(s, pat, pos)
  {
    var i := pos;
    while i <= |s| - |pat|
      invariant pos <= i
      invariant Find(s, pat, pos) == Find(s, pat, i)
    {
      if s[i..i + |pat|] == pat {
        return i;
      }
      i := i + 1;
    }
    r := -1;
  }

  /** The end of the run of octets other than `c` that starts at `pos`. */
  function EndOfRun(s: string, c: char, pos: nat): (r: nat)
    requires pos <= |s|
    ensures pos <= r <= |s| && (r < |s| ==> s[r] == c) && forall i :: pos <= i < r ==> s[i] != c
    decreases |s| - pos
  {
    if pos == |s| || s[pos] == c then pos else EndOfRun(s, c, pos + 1)
  }

  lemma SliceBeyond(a: string, b: string, from: nat, to: nat)
    requires from <= to <= |b|
    ensures (a + b)[|a| + from..|a| + to] == b[from..to]
  {
  }

  lemma EndOfRunBeyond(a: string, b: string, c: char, pos: nat)
    requires pos <= |b|
    ensures EndOfRun(a + b, c, |a| + pos) == |a| + EndOfRun(b, c, pos)
    decreases |b| - pos
  {
    if pos < |b| {
      assert (a + b)[|a| + pos] == b[pos];
      if b[pos] != c { EndOfRunBeyond(a, b, c, pos + 1); }
    }
  }

  lemma EndOfRunAfter(a: string, b: string, c: char)
    requires forall i :: 0 <= i < |a| ==> a[i] != c
    ensures EndOfRun(a + b, c, 0) == |a| + EndOfRun(b, c, 0)
  {
    var r, n := EndOfRun(a + b, c, 0), EndOfRun(b, c, 0);
    forall i | 0 <= i < |a| + n ensures (a + b)[i] != c {
      if i < |a| { assert (a + b)[i] == a[i]; } else { assert (a + b)[i] == b[i - |a|]; }
    }
    if n < |b| { assert (a + b)[|a| + n] == c; }
  }

  /** octstr_search_char, with the length of the string for -1 as all its callers here take it. */
  method SearchCharOrEnd(s: string, c: char, pos: nat) returns (r: nat)
    requires pos <= |s|
    ensures r == EndOfRun(s, c, pos)
  {
    r := pos;
    while r < |s| && s[r] != c
      invariant pos <= r <= |s| && EndOfRun(s, c, r) == EndOfRun(s, c, pos)
    {
      r := r + 1;
    }
  }

  /** A C string ends at its first NUL. */
  function Cstr(s: string): string { s[..EndOfRun(s, NUL, 0)] }

  /** A C string goes on past a part without NULs. */
  lemma CstrAfter(a: string, x: string)
    requires forall i :: 0 <= i < |a| ==> a[i] != NUL
    ensures Cstr(a + x) == a + Cstr(x)
  {
    EndOfRunAfter(a, x, NUL);
    var n := EndOfRun(x, NUL, 0);
    assert (a + x)[..|a| + n] == a + x[..n];
  }

  // ------------------------------------------------------------------ sscanf

  /** One conversion of the pattern: a literal, or two with white space between them, then a field of at
      most `width` octets, digits or anything but a blank. White space in the pattern stands between items. */
  datatype Item = Item(first: string, second: string, digits: bool, width: nat)

  predicate Accepts(item: Item, c: char) {
    if item.digits then IsDigit(c) else c != ' '
  }

  function SkipSpaces(s: string): string {
    if s != [] && IsSpace(s[0]) then SkipSpaces(s[1..]) else s
  }

  function Strip(s: string, word: string): (r: (bool, string))
  {
    if |word| <= |s| && s[..|word|] == word then (true, s[|word|..]) else (false, s)
  }

  /** How many octets the field takes. */
  function Span(s: string, item: Item, width: nat): (n: nat)
    ensures n <= |s| && n <= width && forall i :: 0 <= i < n ==> Accepts(item, s[i])
    ensures n < |s| && n < width ==> !Accepts(item, s[n])
    decreases width
  {
    if width == 0 || s == [] || !Accepts(item, s[0]) then 0 else 1 + Span(s[1..], item, width - 1)
  }

  /** What follows the literals of an item, if they match. */
  function AfterLiterals(s: string, item: Item): (bool, string) {
    var (ok, rest) := Strip(s, item.first);
    if !ok then (false, s)
    else if item.second == "" then (true, rest)
    else Strip(SkipSpaces(rest), item.second)
  }

  /** The fields sscanf assigns, in order; it stops at the first literal or field that does not match. */
  function Scan(s: string, items: seq<Item>): (fields: seq<string>)
    ensures |fields| <= |items|
    decreases |items|
  {
    if items == [] then []
    else
      var (ok, rest) := AfterLiterals(s, items[0]);
      if !ok then []
      else
        var n := Span(rest, items[0], items[0].width);
        if n == 0 then [] else [rest[..n]] + Scan(SkipSpaces(rest[n..]), items[1..])
  }

  // ------------------------------------------------------------------ strtol in base 16

  function HexValueOf(c: char): int {
    if '0' <= c <= '9' then c as int - '0' as int
    else if 'a' <= c <= 'f' then c as int - 'a' as int + 10
    else if 'A' <= c <= 'F' then c as int - 'A' as int + 10
    else -1
  }

  function HexDigits(s: string, acc: nat): nat {
    if s == [] || HexValueOf(s[0]) < 0 then acc else HexDigits(s[1..], 16 * acc + HexValueOf(s[0]))
  }

  /** The number an unsigned int receives. */
  function Strtol16(s: string): int {
    var t := SkipSpaces(s);
    var negative := t != [] && t[0] == '-';
    var u := if t != [] && (t[0] == '-' || t[0] == '+') then t[1..] else t;
    var prefixed := |u| > 2 && u[0] == '0' && (u[1] == 'x' || u[1] == 'X') && HexValueOf(u[2]) >= 0;
    var v: int := HexDigits(if prefixed then u[2..] else u, 0);
    (if negative then -v else v) % 0x1_0000_0000
  }

  /** The digit's place among the digits, in either case. */
  function PlaceOf(c: char): (n: int)
    ensures -1 <= n < 16
  {
    if '0' <= c <= '9' then c as int - 48
    else if 'A' <= c <= 'F' then c as int - 55
    else if 'a' <= c <= 'f' then c as int - 87
    else -1
  }

  predicate AllDigits(h: string) {
    forall i :: 0 <= i < |h| ==> PlaceOf(h[i]) >= 0
  }

  /** The number that hexadecimal digits stand for. */
  function Number(h: string): nat
    requires AllDigits(h)
  {
    if h == "" then 0 else 16 * Number(h[..|h| - 1]) + PlaceOf(h[|h| - 1])
  }

  lemma ValueIsPlace(c: char)
    ensures HexValueOf(c) == PlaceOf(c)
  {
  }

  lemma {:induction false} DigitsThenMore(h: string, rest: string, acc: nat)
    requires AllDigits(h)
    ensures HexDigits(h + rest, acc) == HexDigits(rest, HexDigits(h, acc))
    decreases |h|
  {
    if h == "" {
      assert h + rest == rest;
    } else {
      ValueIsPlace(h[0]);
      assert (h + rest)[1..] == h[1..] + rest;
      DigitsThenMore(h[1..], rest, 16 * acc + HexValueOf(h[0]));
    }
  }

  lemma {:induction false} DigitsAreNumber(h: string)
    requires AllDigits(h)
    ensures HexDigits(h, 0) == Number(h)
    decreases |h|
  {
    if h != "" {
      var front, c := h[..|h| - 1], h[|h| - 1];
      assert h == front + [c];
      DigitsAreNumber(front);
      DigitsThenMore(front, [c], 0);
      ValueIsPlace(c);
      assert [c][1..] == "" && HexValueOf(c) >= 0;
      assert HexDigits([c], Number(front)) == HexDigits("", 16 * Number(front) + HexValueOf(c));
    }
  }

  predicate Blank(s: string) {
    forall i :: 0 <= i < |s| ==> IsSpace(s[i])
  }

  lemma {:induction false} BlanksSkipped(blanks: string, s: string)
    requires Blank(blanks) && (s == "" || !IsSpace(s[0]))
    ensures SkipSpaces(blanks + s) == s
    decreases |blanks|
  {
    if blanks == "" {
      assert blanks + s == s;
    } else {
      assert (blanks + s)[1..] == blanks[1..] + s;
      BlanksSkipped(blanks[1..], s);
    }
  }

  lemma DigitsUpTo(h: string, rest: string)
    requires AllDigits(h) && (rest == "" || PlaceOf(rest[0]) < 0)
    ensures HexDigits(h + rest, 0) == Number(h)
  {
    DigitsThenMore(h, rest, 0);
    DigitsAreNumber(h);
    if rest != "" { ValueIsPlace(rest[0]); }
  }

  /** Does "0x" with a digit behind it begin the string? */
  predicate Prefixed(u: string) {
    |u| > 2 && u[0] == '0' && (u[1] == 'x' || u[1] == 'X') && HexValueOf(u[2]) >= 0
  }

  lemma MagnitudeIs(prefix: string, h: string, rest: string)
    requires prefix == "" || prefix == "0x" || prefix == "0X"
    requires h != "" && AllDigits(h) && (rest == "" || (PlaceOf(rest[0]) < 0 && rest[0] != 'x' && rest[0] != 'X'))
    ensures var u := prefix + (h + rest);
            && u != "" && !IsSpace(u[0]) && u[0] != '-' && u[0] != '+'
            && HexDigits(if Prefixed(u) then u[2..] else u, 0) == Number(h)
  {
    var u := prefix + (h + rest);
    ValueIsPlace(h[0]);
    DigitsUpTo(h, rest);
    if prefix == "" {
      assert u == h + rest && u[0] == h[0];
      assert |u| > 1 ==> u[1] == if |h| > 1 then h[1] else rest[0];
    } else {
      assert u[0] == '0' && u[2] == h[0] && u[1] == prefix[1] && u[2..] == h + rest;
    }
  }

  /** Leading white space, a sign and "0x" are passed over, digits of either case are read up to the first other
      character, and a negative number wraps around. */
  lemma StrtolReads(blanks: string, sign: string, prefix: string, h: string, rest: string)
    requires Blank(blanks) && (sign == "" || sign == "+" || sign == "-")
    requires prefix == "" || prefix == "0x" || prefix == "0X"
    requires h != "" && AllDigits(h) && (rest == "" || (PlaceOf(rest[0]) < 0 && rest[0] != 'x' && rest[0] != 'X'))
    ensures var n: int := Number(h);
            Strtol16(blanks + (sign + (prefix + (h + rest)))) == (if sign == "-" then -n else n) % 0x1_0000_0000
  {
    var u := prefix + (h + rest);
    var t := sign + u;
    MagnitudeIs(prefix, h, rest);
    assert t[0] == if sign == "" then u[0] else sign[0];
    assert sign != "" ==> t[1..] == u;
    assert sign == "" ==> t == u;
    BlanksSkipped(blanks, t);
  }
}
