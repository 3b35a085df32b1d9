/** What the answers mean end to end, through printing, framing and parsing, and
    the two promises of the protocol that hold only under a condition. */
module Answers {
  import opened Types
  import opened Text
  import opened Channel
  import opened Plugin
  import opened Backend
  import opened Session
  import opened Agreement

  /** Reading global memory while halted gives the very bytes, or none when the
      range is not valid. */
  lemma ReadReturnsMemory(o: Oclgrind, w: World, address: u64, length: u64)
    requires Ready(w) && w.b.halted && length > 0
    ensures Perform(o, w, Read(address, length)).result ==
      Bytes(Some(if o.valid(w.sim.p.served, address, length)
                 then seq(length, i requires 0 <= i < length => o.byteAt(w.sim.p.served, address + i))
                 else []))
  {
    hide Handle, ReadCommand, Hex, FirstWord, AfterWord, Unhex;
    var bytes := Memory(o, w.sim.p.served, address, length);
    ReadHandled(o, w.sim.p, address, length);
    OneExchange(o, w.sim, w.b, ReadCommand(address, length), Loaded(length));
    if bytes == [] {
      ErrIsNotData("invalid address");
      assert Hex(bytes) == "";
    } else {
      DataIsRead(bytes, length);
      assert bytes[..|bytes|] == bytes;
    }
  }

  lemma ErrIsNotData(reason: string)
    ensures FirstWord("err " + reason) == "err" && PrintedFrom(Some("err " + reason)) == None
  {
    hide FirstWord, Words, AfterWord;
    assert "err " + reason == "err" + (" " + reason);
    WordSplits("err", " " + reason);
  }

  lemma DataWords(bytes: seq<u8>)
    requires bytes != []
    ensures FirstWord("data " + Hex(bytes)) == "data" && FirstWord(AfterWord("data " + Hex(bytes))) == Hex(bytes)
  {
    hide FirstWord, AfterWord, Words, Hex;
    var hex := Hex(bytes);
    assert "data " + hex == "data" + (" " + hex);
    WordSplits("data", " " + hex);
    BlankSkipped(hex);
    HexIsOneWord(bytes);
    assert hex + "" == hex;
    WordSplits(hex, "");
  }

  /** The bytes of a data reply are those that were sent; bytes beyond those asked
      for are left out. */
  lemma DataIsRead(bytes: seq<u8>, length: u64)
    requires bytes != []
    ensures LoadedFrom(Some("data " + Hex(bytes)), length) == Some(bytes[..Min(|bytes|, length)])
  {
    hide FirstWord, AfterWord, Hex, Unhex;
    DataWords(bytes);
    assert |Hex(bytes)| / 2 == |bytes|;
    UnhexOfHex(bytes, Min(|bytes|, length));
  }

  /** The captured text with every line end turned into a blank. */
  predicate OneLineOf(raw: string, text: string) {
    |text| == |raw| &&
    forall i | 0 <= i < |raw| :: text[i] == if raw[i] == '\n' || raw[i] == '\r' then ' ' else raw[i]
  }

  /** The text is what Oclgrind prints for the first word of the name in the
      current work-item; there is none without a kernel, a work-item or a word, or
      when Oclgrind prints nothing or that it found nothing. */
  predicate IsTextOf(o: Oclgrind, p: State, name: string, text: Option<string>) {
    var word := FirstWord(name);
    if word == "" || p.kernel.None? || p.current.None? then text == None
    else
      var raw := o.show(p.served, p.current.value, word);
      if raw == "" || raw == "not found" then text == None
      else text.Some? && OneLineOf(raw, text.value)
  }

  lemma ShownIs(raw: string)
    ensures Shown(raw) == "" <==> raw == "" || raw == "not found"
    ensures raw != "not found" ==> OneLineOf(raw, Shown(raw))
  {
    if raw != "" && raw != "not found" {
      assert |Shown(raw)| == |raw|;
    }
  }

  /** Evaluating an expression while halted gives that text for the work-item the
      debugger stopped at or selected last. */
  lemma EvaluateReturnsText(o: Oclgrind, w: World, name: string)
    requires Ready(w) && w.b.halted && w.b.attached && name != "" && OneLine(name)
    ensures w.sim.p.current.Some? && w.b.stopped.Some?
    ensures var item, seen := w.sim.p.current.value, w.b.stopped.value;
      item.global == seen.global && item.local == seen.local && item.group == seen.group
    ensures var v := Perform(o, w, Evaluate(name)); v.result.Value? && IsTextOf(o, w.sim.p, name, v.result.text)
    ensures Perform(o, w, Evaluate(name)).sim.p.served == w.sim.p.served + 1
  {
    hide Handle, FirstWord, Shown, PrintedFrom, Words, OneLineOf;
    assert OneLine(PrintCommand(name));
    hide PrintCommand;
    var word := FirstWord(name);
    var raw := o.show(w.sim.p.served, w.sim.p.current.value, word);
    var text := Shown(raw);
    ShownIs(raw);
    PrintHandled(o, w.sim.p, name);
    OneExchange(o, w.sim, w.b, PrintCommand(name), Printed);
    PrintReply(o, w.sim.p, name);
    if word == "" {
      ErrIsNotData("unsupported command");
    } else if Active(w.sim.p).None? {
      ErrIsNotData("no work-item is halted");
    } else if text == "" {
      ErrIsNotData("not in scope");
    } else {
      ValueIsRead(text);
    }
  }

  lemma PrintWords(name: string)
    ensures Words(PrintCommand(name)) == ["print"] + Words(name)
    ensures Words(name) == [] <==> FirstWord(name) == ""
    ensures Words(name) != [] ==> Words(name)[0] == FirstWord(name)
  {
    hide FirstWord, AfterWord;
    assert PrintCommand(name) == "print" + (" " + name);
    WordSplits("print", " " + name);
    BlankSkipped(name);
  }

  lemma PrintReply(o: Oclgrind, p: State, name: string)
    ensures var word := FirstWord(name);
      Handle(o, p, PrintCommand(name)).1 ==
        if word == "" then Err("unsupported command")
        else if Active(p).None? then Err("no work-item is halted")
        else
          var text := Shown(o.show(p.served, Active(p).value, word));
          if text == "" then Err("not in scope") else Say("value " + text)
  {
    hide Words, FirstWord, Shown;
    PrintWords(name);
  }

  lemma ValueIsRead(text: string)
    ensures PrintedFrom(Some("value " + text)) == Some(text)
  {
    hide FirstWord, AfterWord, Words;
    assert "value " + text == "value" + (" " + text);
    WordSplits("value", " " + text);
    assert ("value " + text)[6..] == text;
  }

  // ---- Commands that are refused ----

  /** The plugin does not carry a command out: it is empty or has no such verb, or
      what it needs is missing. */
  ghost predicate Refused(o: Oclgrind, p: State, words: seq<string>) {
    words == [] ||
    match words[0]
    case "continue" => false
    case "step" => p.kernel.None? || p.current.None?
    case "break" => |words| < 3 || StrToUl(words[2]) == 0
    case "delete" => |words| < 2 || StrToUl(words[1]) !in p.ids
    case "select" =>
      |words| < 4 || !Selectable(o, p, Size3(StrToUl(words[1]), StrToUl(words[2]), StrToUl(words[3])))
    case "print" =>
      |words| < 2 || p.kernel.None? || p.current.None? ||
      o.show(p.served, p.current.value, words[1]) in {"", "not found"}
    case "read" =>
      |words| < 3 || (StrToUl(words[2]) > 0 && !o.valid(p.served, StrToUl(words[1]), StrToUl(words[2])))
    case _ => true
  }

  predicate IsErr(reply: Reply) { reply.Say? && FirstWord(reply.line) == "err" }

  /** Any command whatever: it is answered `err` exactly when it is refused, and
      then it has changed nothing. */
  lemma ErrIffRefused(o: Oclgrind, p: State, command: string)
    ensures var (q, reply) := Handle(o, p, command);
      && (IsErr(reply) <==> Refused(o, p, Words(command)))
      && (Refused(o, p, Words(command)) ==> q == p.(served := p.served + 1))
  {
    hide Words, IsErr, StrToUl, Execute, EditBreakpoints, Choose, Print, Load, Selectable;
    var words := Words(command);
    ErrIsErr("empty command");
    ErrIsErr("unsupported command");
    if words != [] {
      ExecuteErr(p, words);
      EditErr(p, words);
      if |words| > 1 {
        PrintErr(o, p, words[1]);
      }
      if |words| > 2 {
        LoadErr(o, p, StrToUl(words[1]), StrToUl(words[2]));
      }
      if |words| > 3 {
        ChooseErr(o, p, Size3(StrToUl(words[1]), StrToUl(words[2]), StrToUl(words[3])));
      }
    }
  }

  /** A step that is not refused steps over exactly if its second word is `over`. */
  lemma StepModeIff(o: Oclgrind, p: State, command: string)
    requires var words := Words(command); words != [] && words[0] == "step" && !Refused(o, p, words)
    ensures var (q, reply) := Handle(o, p, command); var words := Words(command);
      && reply.Go? && (q.mode == StepOver <==> |words| > 1 && words[1] == "over")
      && (q.mode == StepIn <==> !(|words| > 1 && words[1] == "over"))
  {
    hide Words;
  }

  lemma ErrIsErr(reason: string)
    requires OneLine(reason)
    ensures IsErr(Err(reason))
  {
    hide FirstWord;
    ErrIsNotData(reason);
  }

  lemma OkIsNotErr()
    ensures !IsErr(Say("ok"))
  {
    hide FirstWord;
    OkWord([]);
  }

  lemma ExecuteErr(p: State, words: seq<string>)
    requires words != []
    ensures var (q, reply) := Execute(p, words);
      && (IsErr(reply) <==> words[0] != "continue" && (p.kernel.None? || p.current.None?))
      && (IsErr(reply) ==> q == p)
  {
    hide FirstWord;
    ErrIsErr("no work-item is halted");
  }

  lemma EditErr(p: State, words: seq<string>)
    requires words != []
    ensures var (q, reply) := EditBreakpoints(p, words);
      && (words[0] == "break" ==> (IsErr(reply) <==> |words| < 3 || StrToUl(words[2]) == 0))
      && (words[0] != "break" ==> (IsErr(reply) <==> |words| < 2 || StrToUl(words[1]) !in p.ids))
      && (IsErr(reply) ==> q == p)
  {
    hide IsErr, StrToUl, Erased, Uses;
    OkIsNotErr();
    ErrIsErr("invalid line");
    ErrIsErr("break needs an id and a line");
    ErrIsErr("delete needs an id");
    ErrIsErr("unknown breakpoint");
  }

  lemma ChooseErr(o: Oclgrind, p: State, target: Size3)
    ensures var (q, reply) := Choose(o, p, target);
      && (IsErr(reply) <==> !Selectable(o, p, target))
      && (IsErr(reply) ==> q == p)
  {
    hide FirstWord, Tail, Selectable, SelectedItem;
    SwitchedIs(o, p, target);
    ErrIsErr("work-item state unavailable");
    if Selectable(o, p, target) {
      var item := SelectedItem(o, p, target);
      OkWord(Coords(item.local) + Coords(item.group));
    }
  }

  lemma PrintErr(o: Oclgrind, p: State, expr: string)
    ensures IsErr(Print(o, p, expr)) <==>
      p.kernel.None? || p.current.None? || o.show(p.served, p.current.value, expr) in {"", "not found"}
  {
    hide FirstWord, Shown;
    ErrIsErr("no work-item is halted");
    ErrIsErr("not in scope");
    if p.current.Some? {
      var raw := o.show(p.served, p.current.value, expr);
      ShownIs(raw);
      TaggedWord("value", Shown(raw));
      assert "value" + " " + Shown(raw) == "value " + Shown(raw);
    }
  }

  lemma LoadErr(o: Oclgrind, p: State, address: u64, length: u64)
    ensures IsErr(Load(o, p, address, length)) <==> length > 0 && !o.valid(p.served, address, length)
  {
    hide FirstWord, Hex;
    ErrIsErr("invalid address");
    var bytes := Memory(o, p.served, address, length);
    assert Hex(bytes) == "" <==> bytes == [];
    TaggedWord("data", Hex(bytes));
    assert "data" + " " + Hex(bytes) == "data " + Hex(bytes);
  }

  lemma TaggedWord(tag: string, text: string)
    requires Solid(tag)
    ensures FirstWord(tag + " " + text) == tag
  {
    hide FirstWord, Words, AfterWord;
    assert tag + " " + text == tag + (" " + text);
    WordSplits(tag, " " + text);
  }

  lemma OkWord(args: seq<u64>)
    ensures FirstWord("ok" + Tail(args)) == "ok" && FirstWord("ok") == "ok"
  {
    hide FirstWord, Words, AfterWord;
    WordSplits("ok", Tail(args));
    assert "ok" + "" == "ok";
    WordSplits("ok", "");
  }

  // ---- Operations at the wrong time, answers of the wrong kind ----

  /** While the program is not halted an operation answers at once: no bytes, no
      work-item, no text, no second launch; the host does not move, unless it is
      being launched. */
  lemma WhileNotHalted(o: Oclgrind, w: World, op: Op)
    requires Ready(w) && !w.b.halted && (op.Launch? ==> w.sim.host != Absent)
    ensures var v := Perform(o, w, op);
      && v.sim == w.sim && !v.b.halted
      && v.b.notified == w.b.notified && v.b.stopped == w.b.stopped && v.b.attached == w.b.attached
      && v.result ==
           match op
           case Launch => Launched(false)
           case SetBreakpoint(line) => Id(if line == 0 then 0 else w.b.nextId)
           case Select(_) => Picked(None)
           case Read(_, _) => Bytes(Some([]))
           case Evaluate(_) => Value(None)
           case _ => Nothing
  {
    hide Answer, Deliver, Handle, FreshIds, TablesAgree, Attends;
  }

  /** While halted, before the first stop, no work-item has been told of and no
      expression is sent; and reading no bytes gives none. */
  lemma NothingToAsk(o: Oclgrind, w: World, name: string, address: u64)
    requires Ready(w) && w.b.halted
    ensures !w.b.attached || name == "" ==> Perform(o, w, Evaluate(name)) == w.(result := Value(None))
    ensures Perform(o, w, Read(address, 0)) == w.(result := Bytes(Some([])))
  {
    hide Answer, Deliver, Handle, FreshIds, TablesAgree, Attends, PrintCommand, ReadCommand;
  }

  /** A reply that is not the one hoped for, or none: what each operation makes of
      it. The channel is closed on a bad greeting and at the end of the stream
      after a resume, and at no other time. */
  lemma WrongReply(b: Debugger, cont: Cont, got: Option<string>)
    requires got.Some? ==>
      FirstWord(got.value) !in {"ready", "ok", "stopped", "data", "value"}
    ensures var act := Deliver(b, cont, got);
      match cont
      case Greeted => act == Done(b.(open := false, halted := false), Launched(false))
      case Added(id) => act.Done? && act.result == Id(0) && act.b == b.(breakpoints := b.breakpoints - {id})
      case Selected(_, step) => act == Done(b, if step.Some? then Nothing else Picked(None))
      case Stopped => act == Done(if got.None? then b.(open := false) else b, Nothing)
      case Loaded(_) => act == Done(b, Bytes(Some([])))
      case Printed => act == Done(b, Value(None))
      case Removed => act == Done(b, Nothing)
      case Registered(_) => act == Register(b, cont.from)
  {
    if cont.Added? {
      assert Erased(b.breakpoints, cont.id) == b.breakpoints - {cont.id};
    }
  }

  /** A stop or an `ok` with too few numbers counts as none. */
  lemma ShortReply(b: Debugger, target: Size3, step: Option<bool>, line: string)
    ensures FirstWord(line) == "stopped" && |Numbers(AfterWords(line, 1))| < 10 ==>
      Deliver(b, Stopped, Some(line)) == Done(b, Nothing)
    ensures FirstWord(line) == "ok" && |Numbers(AfterWords(line, 1))| < 6 ==>
      Deliver(b, Selected(target, step), Some(line)) == Done(b, if step.Some? then Nothing else Picked(None))
  {
    hide Numbers, AfterWords, FirstWord;
  }

  // ---- Promises with a condition ----

  /** On the plugin alone, a `break` keeps the armed lines equal to the lines in
      use if and only if its id is new, or keeps its line, or its old line is
      still used by another id. */
  lemma BreakKeepsLinesIff(o: Oclgrind, p: State, id: u64, line: u64)
    requires line > 0 && forall l :: l in p.lines <==> Uses(p.ids, l)
    ensures var q := Handle(o, p, BreakCommand(id, line)).0;
      (forall l :: l in q.lines <==> Uses(q.ids, l)) <==>
        id !in p.ids || p.ids[id] == line || Uses(Erased(p.ids, id), p.ids[id])
  {
    hide Handle, BreakCommand;
    BreakHandled(o, p, id, line);
    var q := Handle(o, p, BreakCommand(id, line)).0;
    forall l ensures l in q.lines && !Uses(q.ids, l) <==>
      id in p.ids && l == p.ids[id] && l != line && !Uses(Erased(p.ids, id), l)
    {
      UsesAfterBreak(p.ids, id, line, l);
      if id in p.ids && l == p.ids[id] {
        assert Uses(p.ids, l);
      }
    }
    forall l ensures Uses(q.ids, l) ==> l in q.lines {
      UsesAfterBreak(p.ids, id, line, l);
    }
  }

  lemma UsesAfterBreak(ids: map<u64, u64>, id: u64, line: u64, l: u64)
    ensures Uses(ids[id := line], l) <==> l == line || Uses(Erased(ids, id), l)
    ensures Uses(ids, l) <==> (id in ids && ids[id] == l) || Uses(Erased(ids, id), l)
  {
    var now := ids[id := line];
    assert now[id] == line;
    if Uses(Erased(ids, id), l) {
      var k :| k in Erased(ids, id) && Erased(ids, id)[k] == l;
      assert now[k] == l && ids[k] == l;
    }
    if Uses(now, l) && l != line {
      var k :| k in now && now[k] == l;
      assert Erased(ids, id)[k] == l;
    }
    if Uses(ids, l) && !(id in ids && ids[id] == l) {
      var k :| k in ids && ids[k] == l;
      assert Erased(ids, id)[k] == l;
    }
  }

  /** The bytes an evaluation sends are one line if and only if the name is: then
      the plugin reads the command whole and nothing is left over; otherwise part
      of the name is left behind as further commands. */
  lemma EvaluateIsOneExchangeIff(name: string)
    ensures AfterLine(PrintCommand(name) + "\n") == "" <==> OneLine(name)
    ensures Lines(PrintCommand(name) + "\n") == [PrintCommand(name)] <==> OneLine(name)
  {
    hide NextLine, AfterLine;
    var command := PrintCommand(name);
    SentAsOneLineIff(command);
    if OneLine(name) {
      LineSplits(command, "");
      assert command + "\n" + "" == command + "\n";
    } else {
      LineIsFound(command + "\n", command);
      NoLine("");
    }
  }
}
