/** The parser of delivery receipts (Appendix B of SMPP v3.4) and the receipts the server prints itself. */
module Receipt {
  import opened Common
  import opened Scanning

  /** "id:%64[^ ] sub:%3[^ ] dlvrd:%3[^ ] submit date:%14[0-9] done date:%14[0-9] stat:%15[^ ] err:%3[^ ]" */
  const PATTERN: seq<Item> := [
    Item("id:", "", false, 64), Item("sub:", "", false, 3), Item("dlvrd:", "", false, 3),
    Item("submit", "date:", true, 14), Item("done", "date:", true, 14),
    Item("stat:", "", false, 15), Item("err:", "", false, 3)]

  /** The keys of the fallback, in the order of the buffers. */
  const KEYS: seq<string> := ["id:", "sub:", "dlvrd:", "submit date:", "done date:", "stat:", "err:"]

  /** The room in each buffer besides the terminating NUL. */
  const WIDTHS: seq<nat> := [64, 3, 3, 14, 14, 15, 3]

  const TEXT_WIDTH: nat := 64

  // ------------------------------------------------------------------ buffers

  /** A buffer after `data` has been copied over its beginning. */
  function Overwrite(buf: string, data: string): string {
    if |data| <= |buf| then data + buf[|data|..] else buf
  }

  /** At most `width` octets of what lies between two places; nothing if they are the wrong way round. */
  function Between(s: string, from: nat, to: nat, width: nat): (value: string)
    requires from <= |s| && to <= |s|
    ensures |value| <= width
  {
    if to <= from then "" else s[from..from + Min(to - from, width)]
  }

  /** What the fallback copies for a key found at `curr`; nothing when a blank inside the key itself ends
      the search for the end. */
  function KeyFrom(s: string, key: string, width: nat, curr: nat): (value: string)
    requires curr + |key| <= |s|
    ensures |value| <= width
  {
    Between(s, curr + |key|, EndOfRun(s, ' ', curr), width)
  }

  function KeyValue(s: string, key: string, width: nat): (value: string)
    ensures |value| <= width
  {
    var curr := Find(s, key, 0);
    if curr == -1 then "" else KeyFrom(s, key, width, curr)
  }

  /** A zeroed buffer after sscanf has stored its field in it, or has not got that far. */
  function Filled(fields: seq<string>, i: nat, width: nat): string {
    var zeroes := seq(width + 1, _ => NUL);
    if i < |fields| then Overwrite(zeroes, fields[i]) else zeroes
  }

  /** One buffer's final content, as a C string. */
  function FieldOf(s: string, i: nat): string
    requires i < 7
  {
    var fields := Scan(Cstr(s), PATTERN);
    var filled := Filled(fields, i, WIDTHS[i]);
    Cstr(if |fields| == 7 then filled else Overwrite(filled, KeyValue(s, KEYS[i], WIDTHS[i])))
  }

  /** Where "text:" begins, in either case. */
  function TextAt(s: string): int {
    Find(Lower(s), "text:", 0)
  }

  function TextFrom(s: string, from: nat): string
    requires from <= |s|
  {
    Cut(s[from..EndOfRun(s, NUL, from)], TEXT_WIDTH)
  }

  function TextOf(s: string): string {
    if TextAt(s) == -1 then "" else TextFrom(s, TextAt(s) + 5)
  }

  datatype Parsed = Parsed(id: string, sub: int, dlvrd: int, submitDate: string, doneDate: string, stat: string,
                           err: int, text: string)

  /** parse_dlr_short_message; dates as digit strings. */
  function Parse(s: string): Option<Parsed> {
    if s == "" || (FieldOf(s, 0) == "" && FieldOf(s, 5) == "") then None
    else Some(Parsed(FieldOf(s, 0), Strtol16(FieldOf(s, 1)), Strtol16(FieldOf(s, 2)), FieldOf(s, 3), FieldOf(s, 4),
                     FieldOf(s, 5), Strtol16(FieldOf(s, 6)), TextOf(s)))
  }
}
