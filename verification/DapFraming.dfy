/** How the DAP server puts messages on a byte stream and takes them off again
    (Debug Adapter Protocol, section "Base protocol"). Characters stand for
    bytes. */
module DapFraming {
  import opened Types
  import opened Text
  import opened Channel

  const HeaderName := "Content-Length:"

  function Frame(payload: string): string {
    "Content-Length: " + Dec(|payload|) + "\r\n\r\n" + payload
  }

  function Frames(payloads: seq<string>): string {
    if payloads == [] then "" else Frame(payloads[0]) + Frames(payloads[1..])
  }

  // ---- Reading a header ----

  /** std::getline: the line, and what is left; a last line without a newline is
      read too, and exhausts the stream. */
  function Line(s: string): string { s[..Span(IsNotNewline, s)] }

  function AfterGetLine(s: string): (t: string)
    ensures s != "" ==> |t| < |s|
  {
    var k := Span(IsNotNewline, s);
    if k < |s| then s[k + 1..] else ""
  }

  predicate HitEnd(s: string) { Span(IsNotNewline, s) == |s| }

  function Stripped(line: string): string {
    if line != "" && (line[|line| - 1] == '\r' || line[|line| - 1] == '\n') then Stripped(line[..|line| - 1]) else line
  }

  predicate IsLengthField(line: string) { |line| >= 15 && line[..15] == HeaderName }

  /** std::stoull on the rest of the field, 0 when it throws. */
  function FieldLength(line: string): u64
    requires IsLengthField(line)
  {
    match TakeNumber(line[15..])
    case None => 0
    case Some((n, _)) => n
  }

  /** A header: the announced length, the stream after it, and whether reading it
      ran into the end of the stream. */
  datatype Header = NoHeader | Header(length: u64, rest: string, eof: bool)

  function ReadHeader(s: string, got: bool, length: u64): (h: Header)
    ensures h.Header? ==> |h.rest| < |s|
    decreases |s|
  {
    if s == "" then NoHeader
    else
      var line := Stripped(Line(s));
      if line == "" then
        if got then Header(length, AfterGetLine(s), HitEnd(s)) else ReadHeader(AfterGetLine(s), got, length)
      else if IsLengthField(line) then ReadHeader(AfterGetLine(s), true, FieldLength(line))
      else ReadHeader(AfterGetLine(s), got, length)
  }

  method StripLineEnd(line: string) returns (out: string)
    ensures out == Stripped(line)
  {
    out := line;
    while out != "" && (out[|out| - 1] == '\r' || out[|out| - 1] == '\n')
      invariant Stripped(out) == Stripped(line)
      decreases |out|
    {
      out := out[..|out| - 1];
    }
  }

  method ReadDapHeader(input: string) returns (h: Header)
    ensures h == ReadHeader(input, false, 0)
  {
    hide Stripped, Line, AfterGetLine, FieldLength, IsLengthField, HitEnd;
    var s := input;
    var got := false;
    var length: u64 := 0;
    while s != ""
      invariant ReadHeader(input, false, 0) == ReadHeader(s, got, length)
      decreases |s|
    {
      var line := StripLineEnd(Line(s));
      if line == "" {
        if got {
          return Header(length, AfterGetLine(s), HitEnd(s));
        }
      } else if IsLengthField(line) {
        got := true;
        length := FieldLength(line);
      }
      s := AfterGetLine(s);
    }
    return NoHeader;
  }

  // ---- The message loop ----

  /** The payloads the loop hands over, given which of them end the session: it
      stops after one that does, and at a missing header, a zero length, the end
      of the stream or a short read. */
  function Received(s: string, ends: string -> bool): seq<string>
    decreases |s|
  {
    match ReadHeader(s, false, 0)
    case NoHeader => []
    case Header(length, rest, eof) =>
      if length == 0 || eof || |rest| < length then []
      else if ends(rest[..length]) then [rest[..length]]
      else [rest[..length]] + Received(rest[length..], ends)
  }

  // ---- Round trip ----

  lemma LineIs(line: string, rest: string)
    requires OneLine(line)
    ensures var s := line + "\n" + rest; Line(s) == line && AfterGetLine(s) == rest && !HitEnd(s)
  {
    var s := line + "\n" + rest;
    SpanIs(IsNotNewline, s, |line|);
    assert s[..|line|] == line && s[|line| + 1..] == rest;
  }

  lemma StripsReturn(text: string)
    requires text == "" || (text[|text| - 1] != '\r' && text[|text| - 1] != '\n')
    ensures Stripped(text + "\r") == text
  {
    assert (text + "\r")[..|text + "\r"| - 1] == text;
  }

  lemma FieldIs(n: u64)
    ensures var field := "Content-Length: " + Dec(n);
      && IsLengthField(field) && FieldLength(field) == n && OneLine(field + "\r")
      && Stripped(field + "\r") == field && field != ""
  {
    hide Dec, TakeNumber, Stripped;
    var d := Dec(n);
    var field := "Content-Length: " + d;
    assert field[|field| - 1] == d[|d| - 1] && IsDigit(d[|d| - 1]);
    StripsReturn(field);
    assert field[15..] == " " + d;
    TakeDec(n, "");
    assert d + "" == d;
    BlankTaken(d);
    assert field[..15] == HeaderName;
  }

  lemma BlankTaken(s: string)
    ensures TakeNumber(" " + s) == TakeNumber(s)
  {
    hide Trim, NumberAt;
    BlankSkipped(s);
  }

  /** The header of a frame announces the payload's length and stops right before
      the payload, whatever bytes the payload and what follows hold. */
  lemma HeaderRoundTrip(payload: string, rest: string)
    requires |payload| < U64
    ensures ReadHeader(Frame(payload) + rest, false, 0) == Header(|payload|, payload + rest, false)
  {
    hide Dec, Stripped, Line, AfterGetLine, HitEnd, IsLengthField, FieldLength;
    var field := "Content-Length: " + Dec(|payload|);
    var after := "\r" + "\n" + (payload + rest);
    assert Frame(payload) + rest == (field + "\r") + "\n" + after;
    FieldIs(|payload|);
    LineIs(field + "\r", after);
    LineIs("\r", payload + rest);
    StripsReturn("");
    assert "" + "\r" == "\r";
    assert ReadHeader(after, true, |payload|) == Header(|payload|, payload + rest, false);
  }

  /** The lines of a header as a client may send them. */
  function HeaderText(lines: seq<string>): string {
    if lines == [] then "" else lines[0] + "\r" + "\n" + HeaderText(lines[1..])
  }

  predicate HeaderLine(line: string) {
    line != "" && OneLine(line) && line[|line| - 1] != '\r'
  }

  /** The length the last of the length fields announces. */
  function LastLength(lines: seq<string>): Option<u64> {
    if lines == [] then None
    else
      var n := |lines| - 1;
      if IsLengthField(lines[n]) then Some(FieldLength(lines[n])) else LastLength(lines[..n])
  }

  lemma {:induction false} HeaderIsScanned(lines: seq<string>, rest: string, got: bool, length: u64)
    requires forall i | 0 <= i < |lines| :: HeaderLine(lines[i])
    ensures ReadHeader(HeaderText(lines) + ("\r" + "\n" + rest), got, length) ==
      match LastLength(lines)
      case Some(n) => Header(n, rest, false)
      case None => if got then Header(length, rest, false) else ReadHeader(rest, false, length)
  {
    hide Stripped, Line, AfterGetLine, HitEnd, IsLengthField, FieldLength;
    var blank := "\r" + "\n" + rest;
    if lines == [] {
      assert HeaderText(lines) + blank == blank;
      LineIs("\r", rest);
      StripsReturn("");
      assert "" + "\r" == "\r";
    } else {
      var line, after := lines[0], HeaderText(lines[1..]) + blank;
      assert HeaderText(lines) + blank == (line + "\r") + "\n" + after;
      LineIs(line + "\r", after);
      StripsReturn(line);
      FirstOrLast(lines);
      if IsLengthField(line) {
        HeaderIsScanned(lines[1..], rest, true, FieldLength(line));
      } else {
        HeaderIsScanned(lines[1..], rest, got, length);
      }
    }
  }

  lemma {:induction false} FirstOrLast(lines: seq<string>)
    requires lines != []
    ensures LastLength(lines) ==
      if LastLength(lines[1..]).Some? then LastLength(lines[1..])
      else if IsLengthField(lines[0]) then Some(FieldLength(lines[0])) else None
  {
    hide IsLengthField, FieldLength;
    var n := |lines| - 1;
    if n == 0 {
      assert lines[..0] == [];
    } else {
      FirstOrLast(lines[..n]);
      assert lines[1..][..n - 1] == lines[..n][1..];
    }
  }

  /** A frame is one header line, ended by CR and LF as is the blank line after it,
      and then the payload; the line gives the payload's length in decimal. */
  lemma FrameIsHeader(payload: string)
    ensures exists digits: string ::
      && digits != "" && (forall i | 0 <= i < |digits| :: IsDigit(digits[i])) && Val(digits) == |payload|
      && Frame(payload) == HeaderText([HeaderName + " " + digits]) + "\r\n" + payload
  {
    hide Dec;
    var digits := Dec(|payload|);
    var line := HeaderName + " " + digits;
    ValOfDec(|payload|);
    assert HeaderText([line][1..]) == "";
    assert HeaderText([line]) == line + "\r" + "\n" + "";
    assert "Content-Length: " == HeaderName + " ";
    assert Frame(payload) == HeaderText([line]) + "\r\n" + payload;
  }

  /** What a length field announces: blanks, an optional sign, digits and whatever
      follows; 0 when the number does not fit or there is none. */
  lemma FieldLengthIs(blanks: string, sign: string, n: nat, tail: string)
    requires forall i | 0 <= i < |blanks| :: IsSpace(blanks[i])
    requires sign in {"", "+", "-"} && (tail == "" || !IsDigit(tail[0]))
    ensures var line := HeaderName + (blanks + (sign + (Dec(n) + tail)));
      IsLengthField(line) &&
      FieldLength(line) == if n >= U64 then 0 else if sign == "-" then (U64 - n) % U64 else n
    ensures IsLengthField(HeaderName + blanks) && FieldLength(HeaderName + blanks) == 0
  {
    hide Dec, TakeNumber;
    var value := blanks + (sign + (Dec(n) + tail));
    TakeNumberIs(blanks, sign, n, tail);
    assert (HeaderName + value)[15..] == value && (HeaderName + value)[..15] == HeaderName;
    assert (HeaderName + blanks)[15..] == blanks && (HeaderName + blanks)[..15] == HeaderName;
    NoNumberInBlanks(blanks);
  }

  lemma NoNumberInBlanks(blanks: string)
    requires forall i | 0 <= i < |blanks| :: IsSpace(blanks[i])
    ensures TakeNumber(blanks).None?
  {
    SpanIs(IsSpace, blanks, |blanks|);
  }

  /** A header of any fields: the last length field counts, other fields do not,
      and a blank line before any length field is passed over. */
  lemma HeaderIs(lines: seq<string>, rest: string)
    requires forall i | 0 <= i < |lines| :: HeaderLine(lines[i])
    ensures ReadHeader(HeaderText(lines) + ("\r" + "\n" + rest), false, 0) ==
      match LastLength(lines)
      case Some(n) => Header(n, rest, false)
      case None => ReadHeader(rest, false, 0)
  {
    HeaderIsScanned(lines, rest, false, 0);
  }

  /** The payloads up to the first that is empty, or that ends the session. */
  function Delivered(payloads: seq<string>, ends: string -> bool): seq<string> {
    if payloads == [] || payloads[0] == "" then []
    else if ends(payloads[0]) then [payloads[0]]
    else [payloads[0]] + Delivered(payloads[1..], ends)
  }

  /** Stream round trip: whatever was framed is received, in order and byte for
      byte, up to the first empty payload or the first that ends the session. */
  lemma {:induction false} StreamRoundTrip(payloads: seq<string>, ends: string -> bool)
    requires forall i | 0 <= i < |payloads| :: |payloads[i]| < U64
    ensures Received(Frames(payloads), ends) == Delivered(payloads, ends)
  {
    hide Frame, ReadHeader;
    if payloads != [] {
      var p, rest := payloads[0], Frames(payloads[1..]);
      HeaderRoundTrip(p, rest);
      assert (p + rest)[..|p|] == p && (p + rest)[|p|..] == rest;
      StreamRoundTrip(payloads[1..], ends);
    } else {
      NoHeaderInNothing();
    }
  }

  lemma NoHeaderInNothing()
    ensures ReadHeader("", false, 0) == NoHeader
  {
  }

  /** With nothing ending the session, the whole sequence is recovered if and only
      if no payload is empty. */
  lemma {:induction false} RecoveredIffNonEmpty(payloads: seq<string>, ends: string -> bool)
    requires forall i | 0 <= i < |payloads| :: |payloads[i]| < U64 && !ends(payloads[i])
    ensures Received(Frames(payloads), ends) == payloads <==> forall i | 0 <= i < |payloads| :: payloads[i] != ""
  {
    hide Received, Frames;
    StreamRoundTrip(payloads, ends);
    if payloads != [] {
      RecoveredIffNonEmpty(payloads[1..], ends);
      StreamRoundTrip(payloads[1..], ends);
      assert payloads == [payloads[0]] + payloads[1..];
      if forall i | 0 <= i < |payloads| :: payloads[i] != "" {
        assert forall i | 0 <= i < |payloads[1..]| :: payloads[1..][i] == payloads[i + 1];
      }
      if payloads[0] != "" && forall i | 0 <= i < |payloads[1..]| :: payloads[1..][i] != "" {
        assert forall i | 0 < i < |payloads| :: payloads[i] == payloads[1..][i - 1];
      }
      if Delivered(payloads, ends) == payloads {
        assert Delivered(payloads, ends)[1..] == payloads[1..];
        assert ([payloads[0]] + Delivered(payloads[1..], ends))[1..] == Delivered(payloads[1..], ends);
      }
    }
  }
}
