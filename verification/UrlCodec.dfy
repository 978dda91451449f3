/** The %XX codec that binary fields go through on their way to a store and back. */
module UrlCodec {
  import opened Common

  newtype Byte = x: int | 0 <= x < 256

  type Octets = seq<Byte>

  const PERCENT: Byte := 0x25

  /** The value of a hexadecimal digit of either case, -1 for any other octet. */
  function HexNibble(c: Byte): (n: int)
    ensures -1 <= n < 16
  {
    if 0x30 <= c <= 0x39 then c as int - 0x30
    else if 0x41 <= c <= 0x46 then c as int - 0x41 + 10
    else if 0x61 <= c <= 0x66 then c as int - 0x61 + 10
    else -1
  }

  /** The upper-case digit printf's %X writes. */
  function HexDigit(n: int): (c: Byte)
    requires 0 <= n < 16
    ensures HexNibble(c) == n
  {
    if n < 10 then (0x30 + n) as Byte else (0x41 + n - 10) as Byte
  }

  function Triple(b: Byte): Octets {
    [PERCENT, HexDigit(b as int / 16), HexDigit(b as int % 16)]
  }

  function Encoded(s: Octets): Octets {
    if s == [] then [] else Triple(s[0]) + Encoded(s[1..])
  }

  predicate IsTriple(t: Octets) {
    |t| >= 3 && t[0] == PERCENT && HexNibble(t[1]) >= 0 && HexNibble(t[2]) >= 0
  }

  /** Nothing but %XX triples. */
  predicate WellFormed(s: Octets) {
    s == [] || (IsTriple(s) && WellFormed(s[3..]))
  }

  function Value(t: Octets): Byte
    requires IsTriple(t)
  {
    (HexNibble(t[1]) * 16 + HexNibble(t[2])) as Byte
  }

  function Values(s: Octets): Octets
    requires WellFormed(s)
  {
    if s == [] then [] else [Value(s)] + Values(s[3..])
  }

  function Decoded(s: Octets): Octets {
    if WellFormed(s) then Values(s) else s
  }

  // ------------------------------------------------------------------ the loops

  lemma {:induction false} EncodedSnoc(s: Octets, b: Byte)
    ensures Encoded(s + [b]) == Encoded(s) + Triple(b)
  {
    if s == [] {
      assert (s + [b])[1..] == [];
    } else {
      EncodedSnoc(s[1..], b);
      assert (s + [b])[1..] == s[1..] + [b];
    }
  }

  /** smpp_db_url_encode_octstr. */
  method Encode(s: Octets) returns (out: Octets)
    ensures out == Encoded(s)
    ensures |out| == 3 * |s| && forall i :: 0 <= i < |s| ==> EncodesAt(out, i, s[i])
  {
    EncodedAt(s);
    out := [];
    var i := 0;
    while i < |s|
      invariant 0 <= i <= |s| && out == Encoded(s[..i])
    {
      assert s[..i + 1] == s[..i] + [s[i]];
      EncodedSnoc(s[..i], s[i]);
      out := out + Triple(s[i]);
      i := i + 1;
    }
    assert s[..i] == s;
  }

  /** smpp_db_url_decode_octstr: gives its input back as soon as something is not a triple. */
  method Decode(s: Octets) returns (out: Octets)
    ensures out == Decoded(s)
    ensures if WellFormed(s) then 3 * |out| == |s| else out == s
  {
    if WellFormed(s) { ValuesLength(s); }
    if |s| == 0 {
      return [];
    }
    if PERCENT !in s {
      return s;
    }
    out := [];
    var i := 0;
    while i < |s|
      invariant 0 <= i <= |s|
      invariant WellFormed(s[i..]) <==> WellFormed(s)
      invariant WellFormed(s) ==> out + Values(s[i..]) == Values(s)
    {
      ghost var rest := s[i..];
      if i + 2 < |s| && s[i] == PERCENT {
        var hi, lo := HexNibble(s[i + 1]), HexNibble(s[i + 2]);
        if hi < 0 || lo < 0 {
          return s;
        }
        assert rest[3..] == s[i + 3..] && IsTriple(rest) && Value(rest) as int == hi * 16 + lo;
        assert WellFormed(s) ==> out + ([Value(rest)] + Values(rest[3..])) == out + [Value(rest)] + Values(rest[3..]);
        out := out + [(hi * 16 + lo) as Byte];
        i := i + 3;
      } else {
        assert !IsTriple(rest);
        return s;
      }
    }
  }

  // ------------------------------------------------------------------ octet by octet

  const UPPER: string := "0123456789ABCDEF"
  const LOWER: string := "0123456789abcdef"

  /** The octet is the digit `n` in either case. */
  predicate IsDigitOf(c: Byte, n: nat)
    requires n < 16
  {
    c as int == UPPER[n] as int || c as int == LOWER[n] as int
  }

  lemma DigitPlaces(n: nat)
    requires n < 16
    ensures HexDigit(n) as int == UPPER[n] as int
    ensures HexNibble(UPPER[n] as int as Byte) == n == HexNibble(LOWER[n] as int as Byte)
    ensures forall c: Byte :: HexNibble(c) == n <==> IsDigitOf(c, n)
  {
  }

  /** The three octets of an encoded one are a percent sign and its two digits, the high one first, in upper case. */
  predicate EncodesAt(e: Octets, i: nat, b: Byte) {
    && 3 * i + 2 < |e| && e[3 * i] == 0x25
    && e[3 * i + 1] as int == UPPER[b as int / 16] as int && e[3 * i + 2] as int == UPPER[b as int % 16] as int
  }

  lemma {:induction false} EncodedAt(s: Octets)
    ensures |Encoded(s)| == 3 * |s| && forall i :: 0 <= i < |s| ==> EncodesAt(Encoded(s), i, s[i])
  {
    if s != [] {
      EncodedAt(s[1..]);
      var e := Encoded(s);
      DigitPlaces(s[0] as int / 16);
      DigitPlaces(s[0] as int % 16);
      assert EncodesAt(e, 0, s[0]);
      forall i | 0 < i < |s| ensures EncodesAt(e, i, s[i]) {
        assert EncodesAt(Encoded(s[1..]), i - 1, s[1..][i - 1]);
      }
    }
  }

  predicate IsHexadecimal(c: Byte) {
    0x30 <= c <= 0x39 || 0x41 <= c <= 0x46 || 0x61 <= c <= 0x66
  }

  /** Three octets that stand for one. */
  predicate TripleAt(s: Octets, i: nat) {
    3 * i + 2 < |s| && s[3 * i] == 0x25 && IsHexadecimal(s[3 * i + 1]) && IsHexadecimal(s[3 * i + 2])
  }

  /** Their digits are `hi` and `lo`, in either case. */
  predicate StandsAt(s: Octets, i: nat, hi: nat, lo: nat)
    requires hi < 16 && lo < 16
  {
    3 * i + 2 < |s| && s[3 * i] == 0x25 && IsDigitOf(s[3 * i + 1], hi) && IsDigitOf(s[3 * i + 2], lo)
  }

  lemma LaterTriple(s: Octets, i: nat)
    requires |s| >= 3
    ensures TripleAt(s[3..], i) <==> TripleAt(s, i + 1)
  {
    var rest := s[3..];
    if 3 * i + 2 < |rest| {
      assert rest[3 * i] == s[3 * i + 3] && rest[3 * i + 1] == s[3 * i + 4] && rest[3 * i + 2] == s[3 * i + 5];
    }
  }

  /** Well formed is what consists of such threes. */
  lemma {:induction false} WellFormedIff(s: Octets)
    ensures WellFormed(s) <==> |s| % 3 == 0 && forall i :: 0 <= i < |s| / 3 ==> TripleAt(s, i)
  {
    if |s| >= 3 {
      var rest := s[3..];
      WellFormedIff(rest);
      assert |rest| / 3 == |s| / 3 - 1;
      forall i | 0 <= i < |rest| / 3 ensures TripleAt(rest, i) <==> TripleAt(s, i + 1) {
        LaterTriple(s, i);
      }
      forall i | 0 < i < |s| / 3 ensures TripleAt(s, i) <==> TripleAt(rest, i - 1) {
        LaterTriple(s, i - 1);
      }
      assert IsTriple(s) <==> TripleAt(s, 0);
    }
  }

  lemma FirstValue(s: Octets, hi: nat, lo: nat)
    requires hi < 16 && lo < 16 && StandsAt(s, 0, hi, lo)
    ensures IsTriple(s) && Value(s) as int == 16 * hi + lo
  {
    DigitPlaces(hi);
    DigitPlaces(lo);
  }

  /** It is decoded three by three, each to sixteen times its first digit plus its second. */
  lemma {:induction false} DecodedAt(s: Octets, i: nat, hi: nat, lo: nat)
    requires WellFormed(s) && hi < 16 && lo < 16 && StandsAt(s, i, hi, lo)
    ensures 3 * |Decoded(s)| == |s| && Decoded(s)[i] as int == 16 * hi + lo
    decreases i
  {
    ValuesLength(s);
    if i == 0 {
      FirstValue(s, hi, lo);
    } else {
      var rest := s[3..];
      assert StandsAt(rest, i - 1, hi, lo);
      DecodedAt(rest, i - 1, hi, lo);
    }
  }

  // ------------------------------------------------------------------ properties

  /** What is encoded is well formed, and decoding gives it back. */
  lemma {:induction false} DecodeEncode(s: Octets)
    ensures WellFormed(Encoded(s)) && Decoded(Encoded(s)) == s && |Encoded(s)| == 3 * |s|
  {
    if s != [] {
      DecodeEncode(s[1..]);
      var e := Encoded(s);
      assert e[3..] == Encoded(s[1..]);
      assert e[0] == PERCENT && e[1] == HexDigit(s[0] as int / 16) && e[2] == HexDigit(s[0] as int % 16);
      assert Value(e) == s[0];
    }
  }

  lemma {:induction false} ValuesLength(s: Octets)
    requires WellFormed(s)
    ensures 3 * |Values(s)| == |s|
  {
    if s != [] {
      ValuesLength(s[3..]);
    }
  }

  /** Decoding changes exactly the non-empty strings made of triples and nothing else. */
  lemma UnchangedIff(s: Octets)
    ensures Decoded(s) == s <==> s == [] || !WellFormed(s)
  {
    if WellFormed(s) {
      ValuesLength(s);
    }
  }

  /** The image of the encoder: triples with upper-case digits. */
  predicate Canonical(s: Octets) {
    s == [] || (IsTriple(s) && s[1] < 0x61 && s[2] < 0x61 && Canonical(s[3..]))
  }

  /** Encoding undoes decoding exactly on the encoder's own output. */
  lemma {:induction false} EncodeDecodeIff(s: Octets)
    ensures Canonical(s) ==> WellFormed(s)
    ensures WellFormed(s) ==> (Encoded(Decoded(s)) == s <==> Canonical(s))
  {
    if IsTriple(s) {
      EncodeDecodeIff(s[3..]);
      if WellFormed(s) {
        var v := Values(s);
        assert v[0] == Value(s) && v[1..] == Values(s[3..]);
        var e := Encoded(v);
        assert e == Triple(Value(s)) + Encoded(Values(s[3..]));
        assert e[..3] == Triple(Value(s)) && e[3..] == Encoded(Values(s[3..]));
        TripleIff(s);
        assert s == s[..3] + s[3..];
      }
    }
  }

  lemma TripleIff(s: Octets)
    requires IsTriple(s)
    ensures Triple(Value(s)) == s[..3] <==> s[1] < 0x61 && s[2] < 0x61
  {
    var h, l := HexNibble(s[1]), HexNibble(s[2]);
    assert Value(s) as int / 16 == h && Value(s) as int % 16 == l;
    assert HexDigit(h) == s[1] <==> s[1] < 0x61;
    assert HexDigit(l) == s[2] <==> s[2] < 0x61;
    assert s[..3] == [s[0], s[1], s[2]];
  }

  // ------------------------------------------------------------------ stored fields

  /** What add_message does with udhdata and msgdata. */
  function Stored(field: Option<Octets>): Option<Octets> {
    match field case None => None case Some(s) => if s == [] then field else Some(Encoded(s))
  }

  /** What get_stored does with udhdata: a column without octets is not assigned. */
  function LoadedUdh(column: Option<Octets>): Option<Octets> {
    if column.None? || column.value == [] then None else Some(Decoded(column.value))
  }

  /** And with msgdata, which is never left out. */
  function LoadedMsgData(column: Option<Octets>): Option<Octets> {
    match LoadedUdh(column) case None => Some([]) case Some(s) => Some(s)
  }

  /** The Redis loader makes a field of every key, also of one that is not there. */
  function LoadedFromRedis(value: Option<Octets>): Option<Octets> {
    Some(if value.None? || value.value == [] then [] else Decoded(value.value))
  }

  /** Whatever octets it holds, udhdata survives a stay in the store exactly when it is not present and
      empty: then it comes back as not present. msgdata survives exactly when it is present: absent, it comes
      back empty; and so do both fields in Redis. Their octets, if any, always survive. */
  lemma FieldsSurviveIff(field: Option<Octets>)
    ensures field.Some? && |field.value| > 0 ==>
              Stored(field).Some? && WellFormed(Stored(field).value) && |Stored(field).value| == 3 * |field.value|
    ensures LoadedUdh(Stored(field)) == field <==> field != Some([])
    ensures LoadedUdh(Stored(Some([]))) == None
    ensures LoadedMsgData(Stored(field)) == field <==> field != None
    ensures LoadedFromRedis(Stored(field)) == field <==> field != None
    ensures LoadedFromRedis(Stored(field)) == Some(OctetsOf(field))
    ensures LoadedMsgData(Stored(field)) == Some(OctetsOf(field)) && OctetsOf(LoadedUdh(Stored(field))) == OctetsOf(field)
  {
    if field.Some? {
      DecodeEncode(field.value);
    }
  }

  function OctetsOf(field: Option<Octets>): Octets {
    match field case None => [] case Some(s) => s
  }
}
