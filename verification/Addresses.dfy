/** Address normalisation on the way in (submit_sm, data_sm) and out (deliver_sm). */
module Addresses {
  import opened Common

  const TON_INTERNATIONAL: int := 1
  const TON_NATIONAL: int := 2
  const TON_ALPHANUMERIC: int := 5

  /** octstr_check_range looks at no more than this many octets. */
  const CHECKED: nat := 256

  /** octstr_check_range for digits, from `pos` on. */
  predicate DigitsFrom(s: string, pos: nat) {
    forall i :: pos <= i < |s| && i < pos + CHECKED ==> IsDigit(s[i])
  }

  /** octstr_check_range itself. */
  method CheckRange(s: string, pos: nat) returns (ok: bool)
    ensures ok <==> DigitsFrom(s, pos)
  {
    var i := pos;
    while i < |s| && i < pos + CHECKED
      invariant pos <= i && (i <= pos + CHECKED)
      invariant forall j :: pos <= j < i && j < |s| ==> IsDigit(s[j])
    {
      if !IsDigit(s[i]) {
        return false;
      }
      i := i + 1;
    }
    ok := true;
  }

  predicate StartsWith(s: string, prefix: string) {
    |prefix| <= |s| && s[..|prefix|] == prefix
  }

  /** Is an international address refused? Short ones never are. */
  predicate Malformed(addr: string) {
    |addr| >= 7 && !DigitsFrom(addr, if addr[0] == '+' then 1 else 0)
  }

  /** An international address with "00" cut and '+' put in front. */
  function Normalised(addr: string): string {
    var cut := if StartsWith(addr, "00") then addr[2..] else addr;
    if StartsWith(cut, "+") then cut else "+" + cut
  }

  /** The status of the conversion and the address afterwards. */
  function Converted(addr: string, ton: int): (int, string) {
    if ton != TON_INTERNATIONAL then (ESME_ROK, addr)
    else if Malformed(addr) then (ESME_RINVSRCADR, addr)
    else (ESME_ROK, Normalised(addr))
  }

  /** Character `i` is no digit. */
  predicate NoDigit(s: string, i: nat)
    requires i < |s|
  {
    s[i] < '0' || s[i] > '9'
  }

  /** Is anything but a digit among the first 256 characters from `from` on? */
  predicate Strays(s: string, from: nat) {
    exists i: nat :: from <= i < |s| && i < from + 256 && NoDigit(s, i)
  }

  lemma StraysIff(s: string, from: nat)
    ensures Strays(s, from) <==> !DigitsFrom(s, from)
  {
    if !DigitsFrom(s, from) {
      var i :| from <= i < |s| && i < from + CHECKED && !IsDigit(s[i]);
      assert NoDigit(s, i);
    }
    assert forall i: nat :: from <= i < |s| && i < from + 256 && NoDigit(s, i) ==> !IsDigit(s[i]);
  }

  /** An address is refused exactly if it is international, has at least 7 characters, and one of the first 256,
      after a '+' at the beginning, is no digit; the refusal is about the source address in every case, and leaves
      the address as it is. */
  lemma RefusedIff(addr: string, ton: int)
    ensures Converted(addr, ton).0 != ESME_ROK <==>
            ton == 1 && |addr| >= 7 && (if addr[0] == '+' then Strays(addr, 1) else Strays(addr, 0))
    ensures Converted(addr, ton).0 != ESME_ROK ==> Converted(addr, ton) == (ESME_RINVSRCADR, addr)
    ensures ton != 1 ==> Converted(addr, ton) == (ESME_ROK, addr)
  {
    StraysIff(addr, 0);
    StraysIff(addr, 1);
  }

  /** What is accepted as international gets a '+' in the place of "00", or in front if it has neither. */
  lemma AcceptedForm(addr: string)
    requires Converted(addr, 1).0 == ESME_ROK
    ensures var edited := Converted(addr, 1).1;
            if |addr| > 0 && addr[0] == '+' then edited == addr
            else if |addr| > 1 && addr[0] == '0' && addr[1] == '0' then
              edited == (if |addr| > 2 && addr[2] == '+' then addr[2..] else ['+'] + addr[2..])
            else edited == ['+'] + addr
  {
    assert |addr| > 0 ==> addr[..1] == [addr[0]];
    assert |addr| > 1 ==> addr[..2] == [addr[0], addr[1]];
    assert |addr| > 2 ==> addr[2..][..1] == [addr[2]];
  }

  /** smpp_pdu_util_convert_addr; it edits the address in place. */
  method ConvertAddr(addr: string, ton: int) returns (reason: int, edited: string)
    ensures (reason, edited) == Converted(addr, ton)
    ensures reason != ESME_ROK <==> ton == 1 && |addr| >= 7 && (if addr[0] == '+' then Strays(addr, 1) else Strays(addr, 0))
    ensures reason != ESME_ROK ==> reason == ESME_RINVSRCADR && edited == addr
    ensures reason == ESME_ROK && ton == 1 ==> |edited| > 0 && edited[0] == '+'
    ensures ton != 1 ==> edited == addr
  {
    RefusedIff(addr, ton);
    NormalisedHasPlus(addr);
    reason, edited := ESME_ROK, addr;
    if ton == TON_INTERNATIONAL {
      if |addr| >= 7 {
        if addr[0] == '+' {
          var digits := CheckRange(addr, 1);
          if !digits { return ESME_RINVSRCADR, addr; }
        } else {
          var digits := CheckRange(addr, 0);
          if !digits { return ESME_RINVSRCADR, addr; }
        }
      }
      if StartsWith(edited, "00") {
        edited := edited[2..];
      }
      if !StartsWith(edited, "+") {
        edited := "+" + edited;
      }
    }
  }

  /** Type of number and address of a deliver_sm's source. */
  function OutboundSource(addr: string): (int, string) {
    if addr == "" then (TON_NATIONAL, addr)
    else if addr[0] == '+' then
      if DigitsFrom(addr, 1) then (TON_INTERNATIONAL, addr[1..]) else (TON_ALPHANUMERIC, addr)
    else if DigitsFrom(addr, 0) then (TON_NATIONAL, addr)
    else (TON_ALPHANUMERIC, addr)
  }

  /** And of its destination, where a '+' goes in any case. */
  function OutboundDest(addr: string): (int, string) {
    if StartsWith(addr, "+") then (TON_INTERNATIONAL, addr[1..]) else (TON_NATIONAL, addr)
  }

  /** The type of number of a source is international for '+' and digits, national for digits, else alphanumeric, and
      only the first of these loses a character; a destination is international exactly if it has a '+'. */
  lemma OutboundTypes(addr: string)
    ensures var (ton, sent) := OutboundSource(addr);
            if |addr| > 0 && addr[0] == '+' then
              (if Strays(addr, 1) then ton == 5 && sent == addr else ton == 1 && sent == addr[1..])
            else sent == addr && ton == if Strays(addr, 0) then 5 else 2
    ensures var (ton, sent) := OutboundDest(addr);
            if |addr| > 0 && addr[0] == '+' then ton == 1 && sent == addr[1..] else ton == 2 && sent == addr
  {
    StraysIff(addr, 0);
    StraysIff(addr, 1);
    assert |addr| > 0 ==> addr[..1] == [addr[0]];
  }

  /** Whatever is accepted as international gets exactly one '+', and never a "00" it came with. */
  lemma NormalisedHasPlus(addr: string)
    ensures StartsWith(Normalised(addr), "+")
    ensures DigitsFrom(addr, 0) && !StartsWith(addr, "00") ==> Normalised(addr) == "+" + addr
  {
    if StartsWith(addr, "+") {
      assert addr[..1] == "+" && addr[0] == '+';
    }
  }

  lemma ShiftedDigits(addr: string)
    ensures DigitsFrom("+" + addr, 1) <==> DigitsFrom(addr, 0)
  {
    var plus := "+" + addr;
    assert forall i :: 0 <= i < |addr| ==> plus[i + 1] == addr[i];
    if DigitsFrom(plus, 1) {
      forall i | 0 <= i < |addr| && i < CHECKED ensures IsDigit(addr[i]) {
        assert IsDigit(plus[i + 1]);
      }
    }
    if DigitsFrom(addr, 0) {
      forall i | 1 <= i < |plus| && i < 1 + CHECKED ensures IsDigit(plus[i]) {
        assert plus[i] == addr[i - 1];
      }
    }
  }

  /** An address accepted as international is given back unchanged, as a source with the same type of
      number, exactly when it is digits and does not begin with "00". */
  lemma SourceReturnsIff(addr: string)
    requires Converted(addr, TON_INTERNATIONAL).0 == ESME_ROK
    ensures OutboundSource(Converted(addr, TON_INTERNATIONAL).1) == (TON_INTERNATIONAL, addr)
            <==> DigitsFrom(addr, 0) && !StartsWith(addr, "00")
  {
    var n := Normalised(addr);
    NormalisedHasPlus(addr);
    if DigitsFrom(addr, 0) && !StartsWith(addr, "00") {
      ShiftedDigits(addr);
      assert ("+" + addr)[1..] == addr;
    } else {
      ShiftedDigits(addr);
      assert StartsWith(addr, "00") ==> |n| < |addr|;
      assert OutboundSource(n) == (TON_INTERNATIONAL, addr) ==> n == "+" + addr;
    }
  }

  /** As a destination: exactly when it begins with neither '+' nor "00". */
  lemma DestReturnsIff(addr: string)
    requires Converted(addr, TON_INTERNATIONAL).0 == ESME_ROK
    ensures OutboundDest(Converted(addr, TON_INTERNATIONAL).1) == (TON_INTERNATIONAL, addr)
            <==> !StartsWith(addr, "+") && !StartsWith(addr, "00")
  {
    var n := Normalised(addr);
    NormalisedHasPlus(addr);
    assert OutboundDest(n) == (TON_INTERNATIONAL, n[1..]);
    if !StartsWith(addr, "+") && !StartsWith(addr, "00") {
      assert n == "+" + addr && n[1..] == addr;
    } else {
      assert |n| <= |addr|;
    }
  }

  /** The international digit strings of SMPP: 7 to 20 digits without a leading "00". */
  lemma DigitStringsReturn(addr: string)
    requires 7 <= |addr| <= 20 && (forall i :: 0 <= i < |addr| ==> IsDigit(addr[i])) && !StartsWith(addr, "00")
    ensures Converted(addr, TON_INTERNATIONAL) == (ESME_ROK, "+" + addr)
    ensures OutboundSource("+" + addr) == (TON_INTERNATIONAL, addr)
    ensures OutboundDest("+" + addr) == (TON_INTERNATIONAL, addr)
  {
    assert DigitsFrom(addr, 0);
    assert IsDigit(addr[0]);
    NormalisedHasPlus(addr);
    SourceReturnsIff(addr);
    assert ("+" + addr)[1..] == addr && ("+" + addr)[..1] == "+";
  }
}
