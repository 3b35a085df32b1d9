/** Newline framing over a byte stream: the channel class and what its two
    loops achieve whatever sizes the operating system moves at a time. */
module Channel {
  import opened Types
  import opened Text

  // ---- Lines of a stream ----

  function IsNotNewline(c: char): bool { c != '\n' }

  /** The first complete line of a stream, if it holds one. */
  function NextLine(s: string): Option<string> {
    var k := Span(IsNotNewline, s);
    if k < |s| then Some(s[..k]) else None
  }

  /** What is left after that line; an unterminated stream is left alone. */
  function AfterLine(s: string): (t: string)
    ensures NextLine(s).Some? ==> |t| < |s|
    ensures NextLine(s).None? ==> t == s
  {
    var k := Span(IsNotNewline, s);
    if k < |s| then s[k + 1..] else s
  }

  lemma LineSplits(line: string, rest: string)
    requires OneLine(line)
    ensures NextLine(line + "\n" + rest) == Some(line)
    ensures AfterLine(line + "\n" + rest) == rest
  {
    var s := line + "\n" + rest;
    SpanIs(IsNotNewline, s, |line|);
    assert s[..|line|] == line;
    assert s[|line| + 1..] == rest;
  }

  lemma NoLine(s: string)
    requires OneLine(s)
    ensures NextLine(s).None? && AfterLine(s) == s
  {
    SpanIs(IsNotNewline, s, |s|);
  }

  /** A stream is its first line, a newline and the rest. */
  lemma StreamIsLineAndRest(s: string)
    ensures NextLine(s).Some? ==>
      OneLine(NextLine(s).value) && s == NextLine(s).value + "\n" + AfterLine(s)
    ensures NextLine(s).None? ==> OneLine(s)
  {
    var k := Span(IsNotNewline, s);
    if k < |s| {
      assert s[k] == '\n';
      assert s == s[..k] + [s[k]] + s[k + 1..];
    }
  }

  /** Bytes that arrive later never change a line already complete. */
  lemma LineIsStable(s: string, more: string)
    requires NextLine(s).Some?
    ensures NextLine(s + more) == NextLine(s)
    ensures AfterLine(s + more) == AfterLine(s) + more
  {
    StreamIsLineAndRest(s);
    var line := NextLine(s).value;
    assert s + more == line + "\n" + (AfterLine(s) + more);
    LineSplits(line, AfterLine(s) + more);
  }

  /** Every complete line of a stream, in order, and the unterminated tail. */
  function Lines(s: string): seq<string>
    decreases |s|
  {
    if NextLine(s).None? then [] else [NextLine(s).value] + Lines(AfterLine(s))
  }

  function Unterminated(s: string): string
    decreases |s|
  {
    if NextLine(s).None? then s else Unterminated(AfterLine(s))
  }

  /** What the sender puts on the wire for a list of lines. */
  function Framed(lines: seq<string>): string {
    if lines == [] then "" else lines[0] + "\n" + Framed(lines[1..])
  }

  /** Framing round trip: the receiver gets exactly the lines that were sent,
      in order, and an unterminated tail is never delivered. */
  lemma {:induction false} FramingRoundTrip(lines: seq<string>, tail: string)
    requires forall i | 0 <= i < |lines| :: OneLine(lines[i])
    requires OneLine(tail)
    ensures Lines(Framed(lines) + tail) == lines
    ensures Unterminated(Framed(lines) + tail) == tail
  {
    if lines == [] {
      assert Framed(lines) + tail == tail;
      NoLine(tail);
    } else {
      var rest := Framed(lines[1..]) + tail;
      assert Framed(lines) + tail == lines[0] + "\n" + rest;
      LineSplits(lines[0], rest);
      FramingRoundTrip(lines[1..], tail);
    }
  }

  /** Conversely a stream determines its lines: framing them again and adding
      the tail rebuilds every byte. */
  lemma {:induction false} FramingConserves(s: string)
    ensures Framed(Lines(s)) + Unterminated(s) == s
    ensures forall i | 0 <= i < |Lines(s)| :: OneLine(Lines(s)[i])
    decreases |s|
  {
    StreamIsLineAndRest(s);
    if NextLine(s).Some? {
      FramingConserves(AfterLine(s));
      var line, rest := NextLine(s).value, AfterLine(s);
      assert Lines(s)[1..] == Lines(rest);
      assert Framed(Lines(s)) + Unterminated(s) == line + "\n" + (Framed(Lines(rest)) + Unterminated(rest));
    }
  }

  function Newlines(s: string): nat {
    if s == "" then 0 else (if s[0] == '\n' then 1 else 0) + Newlines(s[1..])
  }

  /** Sending a string that holds a newline delivers the part before it first. */
  lemma {:induction false} SentLines(s: string)
    ensures |Lines(s + "\n")| == 1 + Newlines(s)
    ensures OneLine(s) <==> Newlines(s) == 0
  {
    hide NextLine, AfterLine;
    if s == "" {
      LineSplits("", "");
      assert "" + "\n" + "" == s + "\n";
      NoLine("");
    } else {
      SentLines(s[1..]);
      var t := s[1..] + "\n";
      assert s + "\n" == [s[0]] + t;
      if s[0] == '\n' {
        assert s + "\n" == "" + "\n" + t;
        LineSplits("", t);
      } else {
        LineIsFound(t, s[1..]);
        LineGrows(s[0], t);
        OneLineFrom(s);
      }
    }
  }

  lemma OneLineFrom(s: string)
    requires s != "" && s[0] != '\n'
    ensures OneLine(s) <==> OneLine(s[1..])
  {
    if OneLine(s[1..]) {
      forall i | 0 <= i < |s| ensures s[i] != '\n' {
        assert i > 0 ==> s[i] == s[1..][i - 1];
      }
    }
  }

  lemma LineGrows(c: char, t: string)
    requires c != '\n' && NextLine(t).Some?
    ensures |Lines([c] + t)| == |Lines(t)|
  {
    StreamIsLineAndRest(t);
    var line := NextLine(t).value;
    assert [c] + t == ([c] + line) + "\n" + AfterLine(t);
    LineSplits([c] + line, AfterLine(t));
  }

  /** A sent string is received as exactly one line, itself, if and only if it
      holds no newline; otherwise the peer sees more lines than were sent. */
  lemma SentAsOneLineIff(s: string)
    ensures Lines(s + "\n") == [s] <==> OneLine(s)
    ensures !OneLine(s) ==> |Lines(s + "\n")| > 1
  {
    SentLines(s);
    if OneLine(s) {
      FramingRoundTrip([s], "");
      assert Framed([s]) == s + "\n" + Framed([s][1..]);
      assert Framed([s]) + "" == s + "\n";
    }
  }

  lemma LineIsFound(t: string, s: string)
    requires t == s + "\n"
    ensures NextLine(t).Some?
  {
    StreamIsLineAndRest(t);
    assert !OneLine(t) by {
      assert t[|s|] == '\n';
    }
  }

  // ---- The channel ----

  /** The process at the other end: it takes whatever is written, or is gone after
      so many more bytes. */
  datatype Peer = Stays | Leaves(room: nat)

  predicate Fits(peer: Peer, bytes: string) { peer.Stays? || |bytes| <= peer.room }

  /** What of the bytes can still be written, and what the peer then takes. */
  function Part(peer: Peer, bytes: string): string { if Fits(peer, bytes) then bytes else bytes[..peer.room] }

  function Less(peer: Peer, bytes: string): Peer {
    if peer.Stays? then Stays else Leaves(peer.room - |Part(peer, bytes)|)
  }

  /** One end of the socket. `incoming` stands for the bytes the peer has
      written or will write before it closes, `outgoing` for the bytes that
      have left. */
  class LineChannel {
    var open: bool
    var pending: string
    var incoming: string
    var outgoing: string
    var peer: Peer

    constructor (incoming: string, peer: Peer)
      ensures open && pending == "" && this.incoming == incoming
      ensures outgoing == "" && this.peer == peer
    {
      open, pending, this.incoming, outgoing := true, "", incoming, "";
      this.peer := peer;
    }

    /** Everything still to be received: buffered bytes, then the wire. */
    ghost function Stream(): string
      reads this
    {
      pending + incoming
    }

    method Close()
      modifies this`open, this`pending
      ensures !open && pending == ""
    {
      open, pending := false, "";
    }

    /** Writes the line and its newline in as many pieces as it takes, or as many
        as the peer takes. */
    method Send(line: string) returns (ok: bool)
      modifies this`outgoing, this`peer
      ensures ok <==> open && Fits(old(peer), line + "\n")
      ensures outgoing == old(outgoing) + if open then Part(old(peer), line + "\n") else ""
      ensures peer == if open then Less(old(peer), line + "\n") else old(peer)
    {
      if !open {
        return false;
      }
      var framed := line + "\n";
      var sent := 0;
      while sent < |framed|
        invariant 0 <= sent <= |framed|
        invariant outgoing == old(outgoing) + framed[..sent]
        invariant old(peer).Stays? ==> peer == Stays
        invariant old(peer).Leaves? ==> sent <= old(peer).room && peer == Leaves(old(peer).room - sent)
      {
        if peer == Leaves(0) {
          return false;
        }
        var most := if peer.Stays? then |framed| - sent else Min(|framed| - sent, peer.room);
        var n :| 0 < n <= most;
        outgoing := outgoing + framed[sent..sent + n];
        peer := if peer.Stays? then Stays else Leaves(peer.room - n);
        sent := sent + n;
      }
      assert framed[..|framed|] == framed;
      return true;
    }

    /** Reads chunks of up to 4096 bytes until a line is complete. */
    method Recv() returns (got: Option<string>)
      modifies this`pending, this`incoming
      ensures got == if open then NextLine(old(Stream())) else None
      ensures open ==> Stream() == AfterLine(old(Stream()))
      ensures open && got.None? ==> incoming == ""
      ensures !open ==> Stream() == old(Stream())
    {
      if !open {
        return None;
      }
      while true
        invariant Stream() == old(Stream())
        decreases |incoming|
      {
        var nl := Span(IsNotNewline, pending);
        if nl < |pending| {
          got := Some(pending[..nl]);
          LineIsStable(pending, incoming);
          pending := pending[nl + 1..];
          return;
        }
        if incoming == "" {
          assert pending + incoming == pending;
          return None;
        }
        var n :| 0 < n <= 4096 && n <= |incoming|;
        assert pending + incoming == (pending + incoming[..n]) + incoming[n..];
        pending := pending + incoming[..n];
        incoming := incoming[n..];
      }
    }
  }
}
