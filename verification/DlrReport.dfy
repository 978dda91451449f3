/** From a submitted message to its delivery report: the URL that ties them together, and the deliver_sm
    PDUs made of a report. */
module DlrReport {
  import opened Common
  import opened Scanning
  import opened Receipt
  import opened ReceiptRoundTrip
  import Addresses
  import ReceiptParser

  const UUID_STR_LEN: nat := 36
  const MAX_ADDRESS: nat := 20

  // Kannel's dlr_mask values.
  const DLR_UNDEFINED: int := -1
  const DLR_NOTHING: int := 0x00
  const DLR_SUCCESS: int := 0x01
  const DLR_FAIL: int := 0x02
  const DLR_BUFFERED: int := 0x04
  const DLR_SMSC_SUCCESS: int := 0x08
  const DLR_SMSC_FAIL: int := 0x10

  /** Above this interface version a deliver_sm carries the receipt's optional parameters. */
  const VERSION_3_3: nat := 0x33

  // ------------------------------------------------------------------ the DLR URL

  /** smpp_queues_msg_set_dlr_url. `time` is the decimal time stamp. */
  function DlrUrl(systemId: string, time: string, uuid: string): string {
    systemId + "|" + time + "|" + uuid
  }

  /** smpp_pdu_get_system_id_from_dlr_url. */
  function SystemId(url: string): Option<string> {
    var pos := EndOfRun(url, '|', 0);
    if pos < |url| then Some(url[..pos]) else None
  }

  function SplitFrom(s: string, sep: char, pos: nat): (parts: seq<string>)
    requires pos <= |s|
    ensures parts != []
    decreases |s| - pos
  {
    var next := EndOfRun(s, sep, pos);
    if next == |s| then [s[pos..next]] else [s[pos..next]] + SplitFrom(s, sep, next + 1)
  }

  /** octstr_split at a single octet: one part more than there are separators. */
  function Split(s: string, sep: char): seq<string> {
    SplitFrom(s, sep, 0)
  }

  method SplitAt(s: string, sep: char) returns (parts: seq<string>)
    ensures parts == Split(s, sep)
  {
    parts := [];
    var pos := 0;
    var next := SearchCharOrEnd(s, sep, pos);
    while next < |s|
      invariant 0 <= pos <= next <= |s| && next == EndOfRun(s, sep, pos)
      invariant parts + SplitFrom(s, sep, pos) == Split(s, sep)
      decreases |s| - pos
    {
      OneMore(parts, s[pos..next], SplitFrom(s, sep, next + 1));
      parts := parts + [s[pos..next]];
      pos := next + 1;
      next := SearchCharOrEnd(s, sep, pos);
    }
    parts := parts + [s[pos..next]];
  }

  lemma OneMore(parts: seq<string>, part: string, rest: seq<string>)
    ensures parts + ([part] + rest) == parts + [part] + rest
  {
  }

  lemma {:induction false} SplitBeyond(a: string, b: string, c: char, pos: nat)
    requires pos <= |b|
    ensures SplitFrom(a + b, c, |a| + pos) == SplitFrom(b, c, pos)
    decreases |b| - pos
  {
    var next := EndOfRun(b, c, pos);
    EndOfRunBeyond(a, b, c, pos);
    SliceBeyond(a, b, pos, next);
    if next < |b| {
      SplitBeyond(a, b, c, next + 1);
    }
  }

  predicate Lacks(s: string, c: char) {
    forall i :: 0 <= i < |s| ==> s[i] != c
  }

  lemma RunUpTo(a: string, c: char, b: string)
    requires Lacks(a, c)
    ensures EndOfRun(a + [c] + b, c, 0) == |a|
  {
    var s := a + [c] + b;
    assert s[|a|] == c && forall i :: 0 <= i < |a| ==> s[i] == a[i];
  }

  lemma SplitFirst(a: string, c: char, b: string)
    requires Lacks(a, c)
    ensures Split(a + [c] + b, c) == [a] + Split(b, c)
  {
    var s := a + [c] + b;
    RunUpTo(a, c, b);
    assert s[0..|a|] == a;
    SplitBeyond(a + [c], b, c, 0);
  }

  lemma SplitOne(a: string, c: char)
    requires Lacks(a, c)
    ensures Split(a, c) == [a]
  {
    assert a[0..|a|] == a;
  }

  /** The URL yields the system id it was made with exactly when that has no bar in it. */
  lemma SystemIdReturnsIff(systemId: string, time: string, uuid: string)
    ensures DlrUrl(systemId, time, uuid) == systemId + ("|" + (time + ("|" + uuid)))
    ensures SystemId(DlrUrl(systemId, time, uuid)) == Some(systemId) <==> Lacks(systemId, '|')
  {
    var url := DlrUrl(systemId, time, uuid);
    var rest := time + "|" + uuid;
    assert url == systemId + ['|'] + rest;
    if Lacks(systemId, '|') {
      RunUpTo(systemId, '|', rest);
      assert url[..|systemId|] == systemId;
    } else {
      var i :| 0 <= i < |systemId| && systemId[i] == '|';
      assert url[i] == '|';
      assert EndOfRun(url, '|', 0) <= i < |systemId|;
    }
  }

  lemma UrlSplitsInThree(systemId: string, time: string, uuid: string)
    requires Lacks(systemId, '|') && Lacks(time, '|') && Lacks(uuid, '|')
    ensures Split(DlrUrl(systemId, time, uuid), '|') == [systemId, time, uuid]
  {
    assert DlrUrl(systemId, time, uuid) == systemId + ['|'] + (time + ['|'] + uuid);
    SplitFirst(systemId, '|', time + ['|'] + uuid);
    SplitFirst(time, '|', uuid);
    SplitOne(uuid, '|');
  }

  /** The ids of a message sent in parts, as one string. */
  function JoinIds(ids: seq<string>): string
    requires ids != []
  {
    if |ids| == 1 then ids[0] else ids[0] + ";" + JoinIds(ids[1..])
  }

  lemma {:induction false} SplitJoinedIds(ids: seq<string>)
    requires ids != [] && forall k :: 0 <= k < |ids| ==> Lacks(ids[k], ';')
    ensures Split(JoinIds(ids), ';') == ids
  {
    if |ids| == 1 {
      SplitOne(ids[0], ';');
    } else {
      SplitJoinedIds(ids[1..]);
      SplitFirst(ids[0], ';', JoinIds(ids[1..]));
    }
  }

  // ------------------------------------------------------------------ the report branch

  /** The parts of a report that decide what becomes of it. `expired` is what its meta data say; the dates are
      those the printer puts in, as digit strings; `version` is the client's. */
  datatype ReportMsg = ReportMsg(sender: string, receiver: string, dlrUrl: string, dlrMask: int, expired: bool,
                                 receipt: string, submitDate: string, doneDate: string, version: nat)

  datatype DeliverSm = DeliverSm(source: string, sourceTon: int, dest: string, destTon: int,
                                 receiptedId: Option<string>, messageState: Option<int>, shortMessage: string)

  /** The message_state of SMPP v3.4 section 5.2.28; 0 for the one state that section does not have. */
  function MessageState(mask: int, expired: bool): (state: int)
    ensures state == 2 <==> mask == DLR_SUCCESS && !expired
    ensures state == 3 <==> expired
    ensures state == 5 <==> (mask == DLR_FAIL || mask == DLR_SMSC_FAIL) && !expired
  {
    if expired then 3
    else if mask == DLR_UNDEFINED || mask == DLR_NOTHING then 8
    else if mask == DLR_SUCCESS then 2
    else if mask == DLR_BUFFERED then 6
    else if mask == DLR_SMSC_SUCCESS then 0
    else if mask == DLR_FAIL || mask == DLR_SMSC_FAIL then 5
    else 7
  }

  function Dlvrd(mask: int): string {
    if mask == DLR_SUCCESS then "001" else "000"
  }

  /** A failure is never reported with error 0. */
  function ReportedErr(mask: int, err: int): (e: int)
    ensures (mask == DLR_FAIL || mask == DLR_SMSC_FAIL) ==> e != 0
  {
    if (mask == DLR_FAIL || mask == DLR_SMSC_FAIL) && err == 0 then 1 else err
  }

  lemma ParsedErrIsUnsigned(s: string)
    ensures Parse(s).Some? ==> Parse(s).value.err >= 0
  {
  }

  /** The receipt printed for one message id. */
  function ReportFor(m: ReportMsg, p: Parsed, id: string): Report
    requires p.err >= 0
  {
    Report(id, Dlvrd(m.dlrMask), m.submitDate, m.doneDate, p.stat, ReportedErr(m.dlrMask, p.err), p.text)
  }

  function Deliver(m: ReportMsg, p: Parsed, id: string): DeliverSm
    requires p.err >= 0
  {
    var (sourceTon, source) := Addresses.OutboundSource(m.sender);
    var (destTon, dest) := Addresses.OutboundDest(m.receiver);
    var tlvs := m.version > VERSION_3_3;
    DeliverSm(dest, destTon, source, sourceTon, if tlvs then Some(id) else None,
              if tlvs then Some(MessageState(m.dlrMask, m.expired)) else None, Print(ReportFor(m, p, id)))
  }

  /** What the client is told, field by field: the addresses swapped; above version 3.3 the id and the state; and the
      receipt, with the status and text of the report's own receipt, its dates, and an error that is not 0 for a
      failure. */
  predicate Tells(m: ReportMsg, p: Parsed, id: string, pdu: DeliverSm)
    requires p.err >= 0
  {
    var failed := m.dlrMask == 0x02 || m.dlrMask == 0x10;
    var state := if m.expired then 3
                 else match m.dlrMask
                   case 0x01 => 2
                   case 0x04 => 6
                   case 0x08 => 0
                   case 0x02 => 5
                   case 0x10 => 5
                   case 0 => 8
                   case -1 => 8
                   case _ => 7;
    && (pdu.sourceTon, pdu.source) == Addresses.OutboundDest(m.receiver)
    && (pdu.destTon, pdu.dest) == Addresses.OutboundSource(m.sender)
    && pdu.receiptedId == (if m.version > 0x33 then Some(id) else None)
    && pdu.messageState == (if m.version > 0x33 then Some(state) else None)
    && pdu.shortMessage
       == "id:" + (id + (" sub:001 dlvrd:" + ((if m.dlrMask == 0x01 then "001" else "000")
          + (" submit date:" + (m.submitDate + (" done date:" + (m.doneDate + (" stat:" + (p.stat
          + (" err:" + (Hex3(if failed && p.err == 0 then 1 else p.err) + (" text:" + p.text))))))))))))
  }

  lemma DeliverTells(m: ReportMsg, p: Parsed, id: string)
    requires p.err >= 0
    ensures Tells(m, p, id, Deliver(m, p, id))
  {
    PrintedText(ReportFor(m, p, id));
  }

  predicate AddressesFit(m: ReportMsg) {
    && 0 < |Addresses.OutboundDest(m.receiver).1| <= MAX_ADDRESS
    && |Addresses.OutboundSource(m.sender).1| <= MAX_ADDRESS
  }

  /** Can PDUs be made of the report at all? */
  predicate Processable(m: ReportMsg) {
    AddressesFit(m) && |m.dlrUrl| > UUID_STR_LEN && |Split(m.dlrUrl, '|')| == 3 && Parse(m.receipt).Some?
  }

  /** The source address and type of number of the PDU being built. */
  method SetSource(sender: string) returns (ton: int, source: string)
    ensures (ton, source) == Addresses.OutboundSource(sender)
  {
    ton, source := Addresses.TON_NATIONAL, sender;
    if |source| > 0 {
      if source[0] == '+' {
        var digits := Addresses.CheckRange(source, 1);
        if !digits {
          ton := Addresses.TON_ALPHANUMERIC;
        } else {
          source := source[1..];
          ton := Addresses.TON_INTERNATIONAL;
        }
      } else {
        var digits := Addresses.CheckRange(source, 0);
        if !digits {
          ton := Addresses.TON_ALPHANUMERIC;
        }
      }
    }
  }

  method SetDest(receiver: string) returns (ton: int, dest: string)
    ensures (ton, dest) == Addresses.OutboundDest(receiver)
  {
    ton, dest := Addresses.TON_NATIONAL, receiver;
    if |dest| > 0 && dest[0] == '+' {
      dest := dest[1..];
      ton := Addresses.TON_INTERNATIONAL;
    }
    assert |receiver| > 0 ==> receiver[..1] == [receiver[0]];
  }

  /** The state and the count of delivered messages that the mask stands for. */
  method MaskToState(m: ReportMsg) returns (dlvrd: string, dlrState: int)
    ensures dlvrd == Dlvrd(m.dlrMask) && dlrState == MessageState(m.dlrMask, m.expired)
  {
    dlvrd, dlrState := "000", 7;
    match m.dlrMask {
      case -1 => dlrState := 8;
      case 0x00 => dlrState := 8;
      case 0x01 =>
        dlrState := 2;
        dlvrd := "001";
      case 0x04 => dlrState := 6;
      case 0x08 => dlrState := 0;
      case 0x02 => dlrState := 5;
      case 0x10 => dlrState := 5;
      case _ =>
    }
    if m.expired {
      dlrState := 3;
    }
  }

  /** One PDU for each id. */
  method ListPdus(m: ReportMsg, p: Parsed, parts: seq<string>) returns (list: seq<DeliverSm>)
    requires p.err >= 0
    ensures |list| == |parts| && forall k :: 0 <= k < |parts| ==> list[k] == Deliver(m, p, parts[k])
  {
    var sourceTon, source := SetSource(m.sender);
    var destTon, dest := SetDest(m.receiver);
    var dlvrd, dlrState := MaskToState(m);
    var err := p.err;
    if (m.dlrMask == DLR_FAIL || m.dlrMask == DLR_SMSC_FAIL) && err == 0 {
      err := 1;
    }
    list := [];
    var k := 0;
    while k < |parts|
      invariant 0 <= k <= |parts| && |list| == k
      invariant forall j :: 0 <= j < k ==> list[j] == Deliver(m, p, parts[j])
    {
      var report := Report(parts[k], dlvrd, m.submitDate, m.doneDate, p.stat, err, p.text);
      assert report == ReportFor(m, p, parts[k]);
      var receiptedId, messageState := None, None;
      if m.version > VERSION_3_3 {
        receiptedId, messageState := Some(parts[k]), Some(dlrState);
      }
      list := list + [DeliverSm(dest, destTon, source, sourceTon, receiptedId, messageState, Print(report))];
      k := k + 1;
    }
  }

  /** smpp_pdu_msg_to_pdu for a delivery report. */
  method ReportToPdus(m: ReportMsg) returns (pdus: Option<seq<DeliverSm>>)
    ensures pdus.Some? <==> Processable(m)
    ensures pdus.Some? <==> && 0 < |Addresses.OutboundDest(m.receiver).1| <= 20 && |Addresses.OutboundSource(m.sender).1| <= 20
                            && |m.dlrUrl| > 36 && |Split(m.dlrUrl, '|')| == 3 && Parse(m.receipt).Some?
    ensures pdus.Some? ==>
      var ids := Split(Split(m.dlrUrl, '|')[2], ';');
      && Parse(m.receipt).value.err >= 0 && |pdus.value| == |ids|
      && forall k :: 0 <= k < |ids| ==> pdus.value[k] == Deliver(m, Parse(m.receipt).value, ids[k])
                                        && Tells(m, Parse(m.receipt).value, ids[k], pdus.value[k])
  {
    var sourceTon, source := SetSource(m.sender);
    var destTon, dest := SetDest(m.receiver);
    if |dest| <= 0 || |dest| > MAX_ADDRESS || |source| > MAX_ADDRESS {
      return None;
    }
    if |m.dlrUrl| <= UUID_STR_LEN {
      return None;
    }
    var dlrInfo := SplitAt(m.dlrUrl, '|');
    if |dlrInfo| != 3 {
      return None;
    }
    var p := ReceiptParser.ParseDlrShortMessage(m.receipt);
    if p.None? {
      return None;
    }
    ParsedErrIsUnsigned(m.receipt);
    var parts := SplitAt(dlrInfo[2], ';');
    var list := ListPdus(m, p.value, parts);
    forall k | 0 <= k < |parts| ensures Tells(m, p.value, parts[k], list[k]) { DeliverTells(m, p.value, parts[k]); }
    pdus := Some(list);
  }

  // ------------------------------------------------------------------ correlation

  /** A message id as it is generated: 36 octets, none of them a separator, blank or NUL. */
  predicate Uuid(id: string) {
    |id| == UUID_STR_LEN && Lacks(id, '|') && Lacks(id, ';') && Lacks(id, ' ') && Lacks(id, NUL)
  }

  /** A report for a message sent in one or several parts, carrying the URL written at submission: its system
      id is recovered, and there is one PDU for each id, in order, whose receipt is parsed back to that id;
      the addresses are swapped. `p` is what the report's own receipt said. */
  lemma ReportsAnswerTheirMessages(m: ReportMsg, p: Parsed, systemId: string, time: string, ids: seq<string>, k: nat)
    requires Lacks(systemId, '|') && Lacks(time, '|') && k < |ids| && forall i :: 0 <= i < |ids| ==> Uuid(ids[i])
    requires m.dlrUrl == DlrUrl(systemId, time, JoinIds(ids)) && p.err >= 0
    ensures SystemId(m.dlrUrl) == Some(systemId)
    ensures AddressesFit(m) && Parse(m.receipt) == Some(p) ==> Processable(m)
    ensures |Split(m.dlrUrl, '|')| == 3 && Split(Split(m.dlrUrl, '|')[2], ';') == ids
    ensures var pdu := Deliver(m, p, ids[k]);
            && pdu.receiptedId == (if m.version > VERSION_3_3 then Some(ids[k]) else None)
            && (pdu.sourceTon, pdu.source) == Addresses.OutboundDest(m.receiver)
            && (pdu.destTon, pdu.dest) == Addresses.OutboundSource(m.sender)
            && Parse(pdu.shortMessage).Some? && Parse(pdu.shortMessage).value.id == ids[k]
            && Tells(m, p, ids[k], pdu)
  {
    DeliverTells(m, p, ids[k]);
    UrlOfIds(m.dlrUrl, systemId, time, ids);
    PrintedIdIsParsed(ReportFor(m, p, ids[k]));
  }

  lemma UrlOfIds(url: string, systemId: string, time: string, ids: seq<string>)
    requires Lacks(systemId, '|') && Lacks(time, '|') && ids != [] && forall i :: 0 <= i < |ids| ==> Uuid(ids[i])
    requires url == DlrUrl(systemId, time, JoinIds(ids))
    ensures |url| > UUID_STR_LEN && SystemId(url) == Some(systemId)
    ensures |Split(url, '|')| == 3 && Split(Split(url, '|')[2], ';') == ids
  {
    JoinedIds(ids);
    SystemIdReturnsIff(systemId, time, JoinIds(ids));
    UrlSplitsInThree(systemId, time, JoinIds(ids));
    SplitJoinedIds(ids);
  }

  lemma {:induction false} JoinedIds(ids: seq<string>)
    requires ids != [] && forall i :: 0 <= i < |ids| ==> Uuid(ids[i])
    ensures Lacks(JoinIds(ids), '|') && |JoinIds(ids)| >= UUID_STR_LEN
  {
    if |ids| > 1 {
      JoinedIds(ids[1..]);
    }
  }

  /** Addresses submitted as international digit strings come back, swapped, as first written and
      international. */
  lemma AddressesReturnSwapped(m: ReportMsg, p: Parsed, id: string, from: string, to: string)
    requires p.err >= 0 && 7 <= |from| <= 20 && 7 <= |to| <= 20
    requires forall i :: 0 <= i < |from| ==> IsDigit(from[i])
    requires forall i :: 0 <= i < |to| ==> IsDigit(to[i])
    requires !Addresses.StartsWith(from, "00") && !Addresses.StartsWith(to, "00")
    requires m.sender == Addresses.Converted(from, Addresses.TON_INTERNATIONAL).1
    requires m.receiver == Addresses.Converted(to, Addresses.TON_INTERNATIONAL).1
    ensures AddressesFit(m)
    ensures var pdu := Deliver(m, p, id);
            && pdu.source == to && pdu.sourceTon == Addresses.TON_INTERNATIONAL
            && pdu.dest == from && pdu.destTon == Addresses.TON_INTERNATIONAL
  {
    Addresses.DigitStringsReturn(from);
    Addresses.DigitStringsReturn(to);
  }
}
