/** Constants and small types shared by the models. */
module Common {
  datatype Option<+T> = None | Some(value: T)

  /** Kannel's sms_type values, in the order of its enumeration. */
  datatype SmsType = Mo | MtReply | MtPush | ReportMo | ReportMt

  // SMPP v3.4 command_status values (section 5.1.3) that the server answers with.
  const ESME_ROK: int := 0x00
  const ESME_RINVBNDSTS: int := 0x04
  const ESME_RSYSERR: int := 0x08
  const ESME_RINVSRCADR: int := 0x0A
  const ESME_RINVDSTADR: int := 0x0B
  const ESME_RMSGQFUL: int := 0x14
  const ESME_RSUBMITFAIL: int := 0x45
  const ESME_RTHROTTLED: int := 0x58

  function Min(a: int, b: int): int { if a < b then a else b }

  predicate IsDigit(c: char) { '0' <= c <= '9' }

  function LowerChar(c: char): char {
    if 'A' <= c <= 'Z' then c - 'A' + 'a' else c
  }

  function Lower(s: string): (r: string)
    ensures |r| == |s|
  {
    seq(|s|, i requires 0 <= i < |s| => LowerChar(s[i]))
  }
}
