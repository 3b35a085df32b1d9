/** The text layer both ends of the Oclgrind protocol share: decimal numbers,
    whitespace-separated words and hexadecimal bytes, as the C++ stream and
    string functions read and print them. */
module Text {
  import opened Types

  // ---- Characters and runs of characters ----

  predicate IsSpace(c: char) {
    c == ' ' || c == '\t' || c == '\n' || c == '\r' || c == '\U{0B}' || c == '\U{0C}'
  }

  predicate IsInk(c: char) { !IsSpace(c) }

  predicate IsDigit(c: char) { '0' <= c <= '9' }

  /** A non-empty word: no white space anywhere in it. */
  predicate Solid(s: string) {
    |s| > 0 && forall c | c in s :: IsInk(c)
  }

  predicate OneLine(s: string) {
    '\n' !in s
  }

  /** How many leading characters of s satisfy p. */
  function Span(p: char -> bool, s: string): (k: nat)
    ensures k <= |s|
    ensures forall i | 0 <= i < k :: p(s[i])
    ensures k < |s| ==> !p(s[k])
  {
    if s != "" && p(s[0]) then 1 + Span(p, s[1..]) else 0
  }

  lemma SpanIs(p: char -> bool, s: string, k: nat)
    requires k <= |s|
    requires forall i | 0 <= i < k :: p(s[i])
    requires k < |s| ==> !p(s[k])
    ensures Span(p, s) == k
  {
    if k > 0 {
      SpanIs(p, s[1..], k - 1);
    }
  }

  /** White space is the blank and the five characters from tab to carriage
      return. */
  lemma IsSpaceIff(c: char)
    ensures IsSpace(c) <==> c as int == 32 || 9 <= c as int <= 13
  {
  }

  // ---- Decimal numbers ----

  function Digit(d: int): char
    requires 0 <= d < 10
  {
    "0123456789"[d]
  }

  /** Decimal notation, as operator<< and std::to_string print it. */
  function Dec(n: nat): (s: string)
    ensures |s| > 0 && forall i | 0 <= i < |s| :: IsDigit(s[i])
  {
    if n < 10 then [Digit(n)] else Dec(n / 10) + [Digit(n % 10)]
  }

  /** The number a digit string denotes. */
  function Val(s: string): nat
    requires forall i | 0 <= i < |s| :: IsDigit(s[i])
  {
    if s == "" then 0
    else
      assert IsDigit(s[|s| - 1]);
      Val(s[..|s| - 1]) * 10 + (s[|s| - 1] as int - '0' as int)
  }

  lemma {:induction false} ValOfDec(n: nat)
    ensures Val(Dec(n)) == n
  {
    if n >= 10 {
      ValOfDec(n / 10);
      var s := Dec(n);
      assert s[..|s| - 1] == Dec(n / 10);
    }
  }

  /** Decimal notation has no leading zero. */
  lemma {:induction false} DecIsShortest(n: nat)
    ensures Dec(n)[0] == '0' <==> n == 0
    ensures n == 0 ==> Dec(n) == "0"
  {
    if n >= 10 {
      DecIsShortest(n / 10);
    }
  }

  /** strtoul in base ten on a word: optional sign, saturating on overflow,
      zero when there are no digits. */
  function StrToUl(w: string): u64 {
    var signed := w != "" && (w[0] == '-' || w[0] == '+');
    var body := if signed then w[1..] else w;
    var v := Val(body[..Span(IsDigit, body)]);
    if v >= U64 then U64 - 1
    else if signed && w[0] == '-' then (U64 - v) % U64
    else v
  }

  lemma StrToUlOfDec(n: u64)
    ensures StrToUl(Dec(n)) == n
  {
    hide Dec;
    ValOfDec(n);
    assert IsDigit(Dec(n)[0]);
    assert Dec(n)[..|Dec(n)|] == Dec(n);
  }

  /** Any digits after an optional sign, whatever follows them: the number, the
      greatest 64-bit one on overflow, and the complement for a minus. */
  lemma StrToUlIs(sign: string, n: nat, tail: string)
    requires sign in {"", "+", "-"} && (tail == "" || !IsDigit(tail[0]))
    ensures StrToUl(sign + (Dec(n) + tail)) ==
      if n >= U64 then U64 - 1 else if sign == "-" then (U64 - n) % U64 else n
  {
    hide Dec;
    var d := Dec(n);
    var u := d + tail;
    ValOfDec(n);
    assert IsDigit(u[0]);
    SpanIs(IsDigit, u, |d|);
    assert u[..|d|] == d;
    assert sign == "" ==> sign + u == u;
    assert sign != "" ==> (sign + u)[1..] == u;
  }

  /** Without a digit it is zero. */
  lemma StrToUlWithout(w: string)
    requires w != "" ==> !IsDigit(w[0]) && (w[0] in {'+', '-'} && |w| > 1 ==> !IsDigit(w[1]))
    ensures StrToUl(w) == 0
  {
    assert Val("") == 0;
  }

  // ---- Words ----

  /** What is left of s once the leading white space is skipped. */
  function Trim(s: string): (t: string)
    ensures |t| <= |s|
  {
    s[Span(IsSpace, s)..]
  }

  function FirstWord(s: string): string {
    Trim(s)[..Span(IsInk, Trim(s))]
  }

  function AfterWord(s: string): (t: string)
    ensures FirstWord(s) != "" ==> |t| < |s|
  {
    Trim(s)[Span(IsInk, Trim(s))..]
  }

  function Words(s: string): seq<string>
    decreases |s|
  {
    if FirstWord(s) == "" then [] else [FirstWord(s)] + Words(AfterWord(s))
  }

  /** One word followed by nothing or by white space splits off cleanly. */
  lemma WordSplits(w: string, t: string)
    requires Solid(w)
    requires t == "" || IsSpace(t[0])
    ensures FirstWord(w + t) == w && AfterWord(w + t) == t
    ensures Words(w + t) == [w] + Words(t)
  {
    var s := w + t;
    assert s[0] == w[0] && w[0] in w;
    SpanIs(IsSpace, s, 0);
    assert Trim(s) == s;
    SpanIs(IsInk, s, |w|);
    assert s[..|w|] == w && s[|w|..] == t;
  }

  lemma BlankSkipped(t: string)
    ensures Trim(" " + t) == Trim(t)
    ensures FirstWord(" " + t) == FirstWord(t) && AfterWord(" " + t) == AfterWord(t)
    ensures Words(" " + t) == Words(t)
  {
    assert (" " + t)[1..] == t;
    var k := Span(IsSpace, t);
    assert (" " + t)[1 + k..] == t[k..];
  }

  /** The split_words loop: one extraction per turn until the stream is spent. */
  method SplitWords(line: string) returns (words: seq<string>)
    ensures words == Words(line)
  {
    hide FirstWord, AfterWord;
    words := [];
    var rest := line;
    var word := FirstWord(rest);
    while word != ""
      invariant word == FirstWord(rest)
      invariant words + Words(rest) == Words(line)
      decreases |rest|
    {
      assert Words(rest) == [word] + Words(AfterWord(rest));
      words := words + [word];
      rest := AfterWord(rest);
      word := FirstWord(rest);
    }
  }

  // ---- Numbers read off a stream ----

  /** One `stream >> value` for an unsigned 64-bit value: the value and the
      rest of the stream, or nothing when no number starts there or it does
      not fit. */
  function TakeNumber(s: string): (r: Option<(u64, string)>)
    ensures r.Some? ==> |r.value.1| < |s|
  {
    NumberAt(Trim(s))
  }

  /** The same, once white space is skipped. */
  function NumberAt(t: string): (r: Option<(u64, string)>)
    ensures r.Some? ==> |r.value.1| < |t|
  {
    var sign := if t != "" && (t[0] == '-' || t[0] == '+') then 1 else 0;
    var k := Span(IsDigit, t[sign..]);
    var v := Val(t[sign..][..k]);
    if k == 0 || v >= U64 then None
    else Some((if t[0] == '-' then (U64 - v) % U64 else v, t[sign..][k..]))
  }

  /** Extractions repeated until the first failure. */
  function Numbers(s: string): seq<u64>
    decreases |s|
  {
    match TakeNumber(s)
    case None => []
    case Some((v, rest)) => [v] + Numbers(rest)
  }

  function AfterWords(s: string, skip: nat): string {
    if skip == 0 then s else AfterWords(AfterWord(s), skip - 1)
  }

  /** The loop that collects numbers until an extraction fails. */
  method ReadNumbers(s: string) returns (values: seq<u64>)
    ensures values == Numbers(s)
  {
    hide TakeNumber;
    values := [];
    var rest := s;
    var next := TakeNumber(rest);
    while next.Some?
      invariant next == TakeNumber(rest)
      invariant values + Numbers(rest) == Numbers(s)
      decreases |rest|
    {
      var (v, after) := next.value;
      assert Numbers(rest) == [v] + Numbers(after);
      values := values + [v];
      rest := after;
      next := TakeNumber(rest);
    }
  }

  method ParseNumbers(line: string, skip: nat) returns (values: seq<u64>)
    ensures values == Numbers(AfterWords(line, skip))
  {
    var rest := line;
    for i := 0 to skip
      invariant AfterWords(rest, skip - i) == AfterWords(line, skip)
    {
      rest := AfterWord(rest);
    }
    values := ReadNumbers(rest);
  }

  // ---- Messages: a verb and its numbers ----

  /** ` n` for each number, as the message printers append them. */
  function Tail(args: seq<u64>): (s: string)
    ensures s == "" || s[0] == ' '
    ensures OneLine(s)
  {
    if args == [] then "" else " " + Dec(args[0]) + Tail(args[1..])
  }

  function Decs(args: seq<u64>): (ws: seq<string>)
    ensures |ws| == |args| && forall i | 0 <= i < |args| :: ws[i] == Dec(args[i])
  {
    seq(|args|, i requires 0 <= i < |args| => Dec(args[i]))
  }

  lemma NothingInEmpty()
    ensures Words("") == [] && Numbers("") == []
  {
    assert Trim("") == "";
  }

  lemma DecIsSolid(n: nat)
    ensures Solid(Dec(n))
  {
    hide Dec;
    assert forall i | 0 <= i < |Dec(n)| :: IsDigit(Dec(n)[i]);
  }

  lemma {:induction false} WordsOfTail(args: seq<u64>)
    ensures Words(Tail(args)) == Decs(args)
  {
    hide Words, Dec, Solid, FirstWord, AfterWord;
    if args == [] {
      NothingInEmpty();
    } else {
      var w, t := Dec(args[0]), Tail(args[1..]);
      assert Tail(args) == " " + (w + t);
      BlankSkipped(w + t);
      DecIsSolid(args[0]);
      WordSplits(w, t);
      WordsOfTail(args[1..]);
      assert Decs(args) == [w] + Decs(args[1..]);
    }
  }

  /** Splitting a printed message gives its verb and its numbers back, and each
      number reads back to itself. */
  lemma MessageWords(verb: string, args: seq<u64>)
    requires Solid(verb)
    ensures Words(verb + Tail(args)) == [verb] + Decs(args)
    ensures forall i | 0 <= i < |args| :: StrToUl(Decs(args)[i]) == args[i]
    ensures OneLine(verb + Tail(args))
  {
    hide Words, Tail, StrToUl;
    WordSplits(verb, Tail(args));
    WordsOfTail(args);
    forall i | 0 <= i < |args| ensures StrToUl(Decs(args)[i]) == args[i] {
      StrToUlOfDec(args[i]);
    }
  }

  /** Digits followed by nothing or by a blank are read as one number. */
  lemma TakeDec(n: u64, t: string)
    requires t == "" || t[0] == ' '
    ensures TakeNumber(Dec(n) + t) == Some((n, t))
  {
    hide Dec;
    var d := Dec(n);
    var u := d + t;
    assert IsDigit(u[0]);
    SpanIs(IsSpace, u, 0);
    assert Trim(u) == u && u[0..] == u;
    SpanIs(IsDigit, u, |d|);
    assert u[..|d|] == d && u[|d|..] == t;
    ValOfDec(n);
  }

  lemma NumberAtIs(sign: string, n: nat, tail: string)
    requires sign in {"", "+", "-"} && (tail == "" || !IsDigit(tail[0]))
    ensures NumberAt(sign + (Dec(n) + tail)) ==
      if n >= U64 then None else Some((if sign == "-" then (U64 - n) % U64 else n, tail))
  {
    hide Dec;
    var d := Dec(n);
    var u := d + tail;
    ValOfDec(n);
    assert IsDigit(u[0]);
    SpanIs(IsDigit, u, |d|);
    assert u[..|d|] == d && u[|d|..] == tail;
    assert sign == "" ==> sign + u == u && u[0..] == u;
    assert sign != "" ==> (sign + u)[1..] == u;
  }

  lemma BlanksTrimmed(blanks: string, s: string)
    requires forall i | 0 <= i < |blanks| :: IsSpace(blanks[i])
    requires s != "" && IsInk(s[0])
    ensures Trim(blanks + s) == s
  {
    SpanIs(IsSpace, blanks + s, |blanks|);
    assert (blanks + s)[|blanks|..] == s;
  }

  /** White space, an optional sign and any digits, whatever follows them: the number
      and what follows; nothing when it does not fit. */
  lemma TakeNumberIs(blanks: string, sign: string, n: nat, tail: string)
    requires forall i | 0 <= i < |blanks| :: IsSpace(blanks[i])
    requires sign in {"", "+", "-"} && (tail == "" || !IsDigit(tail[0]))
    ensures TakeNumber(blanks + (sign + (Dec(n) + tail))) ==
      if n >= U64 then None else Some((if sign == "-" then (U64 - n) % U64 else n, tail))
  {
    hide Dec, Trim, NumberAt;
    var s := sign + (Dec(n) + tail);
    assert s[0] == if sign == "" then Dec(n)[0] else sign[0];
    assert IsDigit(Dec(n)[0]);
    NumberAtIs(sign, n, tail);
    BlanksTrimmed(blanks, s);
  }

  lemma NumberSplits(n: u64, t: string)
    requires t == "" || t[0] == ' '
    ensures Numbers(" " + (Dec(n) + t)) == [n] + Numbers(t)
  {
    TakeDec(n, t);
    BlankSkipped(Dec(n) + t);
    hide Dec, Trim, NumberAt;
    assert TakeNumber(" " + (Dec(n) + t)) == TakeNumber(Dec(n) + t);
  }

  lemma {:induction false} NumbersOfTail(args: seq<u64>)
    ensures Numbers(Tail(args)) == args
  {
    hide Numbers, Dec;
    if args == [] {
      NothingInEmpty();
    } else {
      var w, t := Dec(args[0]), Tail(args[1..]);
      assert Tail(args) == " " + (w + t);
      NumberSplits(args[0], t);
      NumbersOfTail(args[1..]);
    }
  }

  /** Reading a printed message with the word-then-numbers reader: the round
      trip for every list of 64-bit fields. */
  lemma MessageNumbers(verb: string, args: seq<u64>)
    requires Solid(verb)
    ensures FirstWord(verb + Tail(args)) == verb
    ensures Numbers(AfterWords(verb + Tail(args), 1)) == args
  {
    hide Numbers, Tail;
    WordSplits(verb, Tail(args));
    NumbersOfTail(args);
    assert AfterWords(verb + Tail(args), 1) == AfterWords(Tail(args), 0);
  }

  // ---- Hexadecimal bytes ----

  function HexDigit(d: int): char
    requires 0 <= d < 16
  {
    "0123456789abcdef"[d]
  }

  function HexVal(c: char): Option<int> {
    if '0' <= c <= '9' then Some(c as int - '0' as int)
    else if 'a' <= c <= 'f' then Some(c as int - 'a' as int + 10)
    else if 'A' <= c <= 'F' then Some(c as int - 'A' as int + 10)
    else None
  }

  function Hex(bytes: seq<u8>): (s: string)
    ensures |s| == 2 * |bytes|
    ensures forall i | 0 <= i < |bytes| ::
      s[2 * i] == HexDigit(bytes[i] / 16) && s[2 * i + 1] == HexDigit(bytes[i] % 16)
  {
    if bytes == [] then ""
    else
      var last := |bytes| - 1;
      Hex(bytes[..last]) + [HexDigit(bytes[last] / 16), HexDigit(bytes[last] % 16)]
  }

  method ToHex(bytes: seq<u8>) returns (out: string)
    ensures out == Hex(bytes)
  {
    out := "";
    for i := 0 to |bytes|
      invariant out == Hex(bytes[..i])
    {
      assert bytes[..i + 1][..i] == bytes[..i];
      out := out + [HexDigit(bytes[i] / 16), HexDigit(bytes[i] % 16)];
    }
    assert bytes[..|bytes|] == bytes;
  }

  /** std::stoul in base sixteen on two characters: white space or a sign may come
      first, what follows the digits is ignored, and without a digit it throws.
      The result is cast to a byte. */
  function HexPair(hi: char, lo: char): Option<u8> {
    match (HexVal(hi), HexVal(lo))
    case (Some(h), Some(l)) => Some(h * 16 + l)
    case (Some(h), None) => Some(h)
    case (None, Some(l)) =>
      if IsSpace(hi) || hi == '+' then Some(l) else if hi == '-' then Some((256 - l) % 256) else None
    case (None, None) => None
  }

  /** What comes before the digits counts only if it is a minus, and what comes after
      one digit not at all. */
  lemma HexPairLaws(c: char, d: int)
    requires 0 <= d < 16
    ensures HexVal(c).None? ==> HexPair(HexDigit(d), c) == Some(d)
    ensures IsSpace(c) || c == '+' ==> HexPair(c, HexDigit(d)) == Some(d)
    ensures HexPair('-', HexDigit(d)) == Some((256 - d) % 256)
    ensures HexVal(c).None? && !IsSpace(c) && c != '+' && c != '-' ==> HexPair(c, HexDigit(d)).None?
    ensures HexVal(c).None? ==> HexPair(c, 'g').None? && HexPair(c, ' ').None?
  {
    HexValOfDigit(d);
  }

  /** The first count bytes a hexadecimal string stands for, or None where the
      original throws. */
  function Unhex(hex: string, count: nat): Option<seq<u8>>
    requires 2 * count <= |hex|
  {
    if count == 0 then Some([])
    else
      match (Unhex(hex, count - 1), HexPair(hex[2 * count - 2], hex[2 * count - 1]))
      case (Some(bytes), Some(b)) => Some(bytes + [b])
      case _ => None
  }

  lemma {:induction false} UnhexStops(hex: string, i: nat, count: nat)
    requires i <= count && 2 * count <= |hex| && Unhex(hex, i).None?
    ensures Unhex(hex, count).None?
    decreases count - i
  {
    if i < count {
      UnhexStops(hex, i + 1, count);
    }
  }

  method DecodeHex(hex: string, capacity: nat) returns (out: Option<seq<u8>>)
    ensures out == Unhex(hex, Min(|hex| / 2, capacity))
  {
    var count := Min(|hex| / 2, capacity);
    var bytes: seq<u8> := [];
    for i := 0 to count
      invariant Unhex(hex, i) == Some(bytes)
    {
      var b := HexPair(hex[2 * i], hex[2 * i + 1]);
      if b.None? {
        UnhexStops(hex, i + 1, count);
        return None;
      }
      bytes := bytes + [b.value];
    }
    return Some(bytes);
  }

  lemma HexValOfDigit(d: int)
    requires 0 <= d < 16
    ensures HexVal(HexDigit(d)) == Some(d)
  {
  }

  /** Printed digits are lower case; read digits may be of either case. */
  lemma HexDigitIs(d: int)
    requires 0 <= d < 16
    ensures HexDigit(d) as int == if d < 10 then '0' as int + d else 'a' as int + d - 10
    ensures d >= 10 ==> HexVal(('A' as int + d - 10) as char) == Some(d)
  {
  }

  lemma HexPairOfByte(b: u8)
    ensures HexPair(HexDigit(b / 16), HexDigit(b % 16)) == Some(b)
  {
    hide HexVal, HexDigit;
    HexValOfDigit(b / 16);
    HexValOfDigit(b % 16);
  }

  lemma HexPairAt(bytes: seq<u8>, i: nat)
    requires i < |bytes|
    ensures HexPair(Hex(bytes)[2 * i], Hex(bytes)[2 * i + 1]) == Some(bytes[i])
  {
    hide HexPair, HexDigit, Hex;
    HexPairOfByte(bytes[i]);
  }

  /** Hexadecimal round trip: the first count bytes come back. */
  lemma {:induction false} UnhexOfHex(bytes: seq<u8>, count: nat)
    requires count <= |bytes|
    ensures Unhex(Hex(bytes), count) == Some(bytes[..count])
  {
    hide HexPair, Hex;
    if count > 0 {
      var i := count - 1;
      UnhexOfHex(bytes, i);
      HexPairAt(bytes, i);
      assert 2 * count - 2 == 2 * i;
      assert bytes[..count] == bytes[..i] + [bytes[i]];
    }
  }

  lemma HexDigitIsInk(d: int)
    requires 0 <= d < 16
    ensures IsInk(HexDigit(d))
  {
  }

  /** Hexadecimal output survives the word splitter: it is one word, or none. */
  lemma HexIsOneWord(bytes: seq<u8>)
    ensures bytes != [] ==> Solid(Hex(bytes))
    ensures OneLine(Hex(bytes))
  {
    hide Hex, HexDigit;
    forall j | 0 <= j < |Hex(bytes)| ensures IsInk(Hex(bytes)[j]) {
      var i := j / 2;
      assert j == 2 * i || j == 2 * i + 1;
      HexDigitIsInk(bytes[i] / 16);
      HexDigitIsInk(bytes[i] % 16);
    }
  }
}
