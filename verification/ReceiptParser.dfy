/** parse_dlr_short_message as code, over its fixed buffers. */
module ReceiptParser {
  import opened Common
  import opened Scanning
  import opened Receipt

  /** octstr_get_many_chars: copies over the beginning of the buffer. */
  method CopyInto(buf: array<char>, data: string)
    requires |data| <= buf.Length
    modifies buf
    ensures buf[..] == Overwrite(old(buf[..]), data)
  {
    var i := 0;
    while i < |data|
      invariant 0 <= i <= |data|
      invariant forall j :: 0 <= j < i ==> buf[j] == data[j]
      invariant forall j :: i <= j < buf.Length ==> buf[j] == old(buf[j])
    {
      buf[i] := data[i];
      i := i + 1;
    }
  }

  /** A zeroed buffer, with sscanf's field stored in it if there is one. */
  method NewBuffer(fields: seq<string>, i: nat, width: nat) returns (buf: array<char>)
    requires i < |fields| ==> |fields[i]| <= width
    ensures fresh(buf) && buf.Length == width + 1 && buf[..] == Filled(fields, i, width)
  {
    buf := new char[width + 1](_ => NUL);
    assert buf[..] == seq(width + 1, _ => NUL);
    if i < |fields| {
      CopyInto(buf, fields[i]);
    }
  }

  /** The octets the fallback copies for a key found at `curr`. */
  method ValueAt(s: string, key: string, width: nat, curr: nat) returns (value: string)
    requires curr + |key| <= |s|
    ensures value == KeyFrom(s, key, width, curr)
  {
    value := "";
    var vpos := SearchCharOrEnd(s, ' ', curr);
    if vpos - curr > 0 {
      var copyLen := vpos - curr - |key|;
      if copyLen > width {
        copyLen := width;
      }
      if copyLen > 0 {
        var from := curr + |key|;
        value := s[from..from + copyLen];
      }
    }
  }

  /** One key of the fallback. */
  method CopyKey(s: string, key: string, buf: array<char>)
    requires buf.Length > 0
    modifies buf
    ensures buf[..] == Overwrite(old(buf[..]), KeyValue(s, key, buf.Length - 1))
  {
    var curr := Search(s, key, 0);
    var value := "";
    if curr != -1 {
      value := ValueAt(s, key, buf.Length - 1, curr);
    }
    CopyInto(buf, value);
  }

  lemma {:induction false} ScannedFits(s: string, items: seq<Item>, i: nat)
    requires i < |Scan(s, items)|
    ensures |Scan(s, items)[i]| <= items[i].width
    decreases |items|
  {
    if i > 0 {
      var rest := AfterLiterals(s, items[0]).1;
      var n := Span(rest, items[0], items[0].width);
      ScannedFits(SkipSpaces(rest[n..]), items[1..], i - 1);
    }
  }

  method ReadField(s: string, fields: seq<string>, i: nat) returns (field: string)
    requires i < 7 && fields == Scan(Cstr(s), PATTERN)
    ensures field == FieldOf(s, i)
  {
    if i < |fields| {
      ScannedFits(Cstr(s), PATTERN, i);
      assert PATTERN[i].width == WIDTHS[i];
    }
    var buf := NewBuffer(fields, i, WIDTHS[i]);
    if |fields| != 7 {
      CopyKey(s, KEYS[i], buf);
    }
    field := Cstr(buf[..]);
  }

  lemma SliceOfSlice(s: string, from: nat, to: nat, n: nat)
    requires from + n <= to <= |s|
    ensures s[from..to][..n] == s[from..from + n]
  {
  }

  /** The search for the text, in either case, and the copy of at most 64 octets. */
  method ReadText(s: string) returns (text: string)
    ensures text == TextOf(s)
  {
    var curr := Search(Lower(s), "text:", 0);
    text := "";
    if curr != -1 {
      var vpos := SearchCharOrEnd(s, NUL, curr + 5);
      var copyLen := vpos - curr - 5;
      if copyLen > TEXT_WIDTH {
        copyLen := TEXT_WIDTH;
      }
      text := s[curr + 5..curr + 5 + copyLen];
      SliceOfSlice(s, curr + 5, vpos, copyLen);
    }
  }

  /** parse_dlr_short_message. The pattern is matched by the function that specifies sscanf. */
  method ParseDlrShortMessage(s: string) returns (r: Option<Parsed>)
    ensures r == Parse(s)
    ensures r.None? <==> s == "" || (FieldOf(s, 0) == "" && FieldOf(s, 5) == "")
    ensures r.Some? ==>
              var p := r.value;
              && p.id == FieldOf(s, 0) && p.submitDate == FieldOf(s, 3) && p.doneDate == FieldOf(s, 4)
              && p.stat == FieldOf(s, 5) && p.text == TextOf(s)
              && p.sub == Strtol16(FieldOf(s, 1)) && p.dlvrd == Strtol16(FieldOf(s, 2)) && p.err == Strtol16(FieldOf(s, 6))
  {
    if |s| == 0 {
      return None;
    }
    var fields := Scan(Cstr(s), PATTERN);
    var id := ReadField(s, fields, 0);
    var sub := ReadField(s, fields, 1);
    var dlvrd := ReadField(s, fields, 2);
    var submitDate := ReadField(s, fields, 3);
    var doneDate := ReadField(s, fields, 4);
    var stat := ReadField(s, fields, 5);
    var err := ReadField(s, fields, 6);
    var text := ReadText(s);
    if |id| == 0 && |stat| == 0 {
      return None;
    }
    r := Some(Parsed(id, Strtol16(sub), Strtol16(dlvrd), submitDate, doneDate, stat, Strtol16(err), text));
  }
}
