/** What a line does on the bus (lib/elm/src/elm.cpp, lib/elm/src/bus.cpp), from the text the user types to the
    frames that go out, the rate they go out at, and the lines the user reads. */
module TypedBus {
  import opened CanTypes
  import opened Config
  import opened AtTable
  import opened Commands
  import opened Conversation
  import opened Exchange
  import opened Handlers
  import opened Procedures
  import opened Record
  import opened Replies
  import opened ReplyText
  import opened Typed
  import Input
  import Readout
  import Text

  // ---------- Requests ----------

  function CountText(count: Option<nat>): string { if count.Some? then [Text.Digit(count.value)] else "" }

  /** The bytes of a request in hex, and perhaps one more digit, the count, are read as those. */
  lemma RequestIsRead(bytes: seq<byte>, count: Option<nat>, caf: bool)
    requires 1 <= |bytes| <= (if caf then 7 else 8) && (count.Some? ==> count.value < 16)
    ensures Input.ParseRequest(HexOf(bytes) + CountText(count), caf)
      == Some(Input.HexRequest(bytes, if count.Some? then count.value else -1))
    ensures var line := HexOf(bytes) + CountText(count); line != "" && !IsAt(line)
  {
    hide HexDigit, HexBytes, Text.Digit, Input.ParseRequest, HexOf;
    var line := HexOf(bytes) + CountText(count);
    BytesRead(bytes);
    HexIsDigits(bytes);
    if count.Some? { DigitIsRead(count.value); }
    assert line[..2 * |bytes|] == HexOf(bytes);
    forall i | 0 <= i < |line| ensures HexDigit(line[i]).Some? {
      if i < 2 * |bytes| { assert line[i] == HexOf(bytes)[i]; }
    }
    ParsedFrom(line, bytes, count, caf);
    TeeIsNoDigit();
  }

  lemma ParsedFrom(line: string, bytes: seq<byte>, count: Option<nat>, caf: bool)
    requires 1 <= |bytes| <= (if caf then 7 else 8) && |line| == 2 * |bytes| + if count.Some? then 1 else 0
    requires HexBytes(line[..2 * |bytes|]) == Some(bytes) && forall i :: 0 <= i < |line| ==> HexDigit(line[i]).Some?
    requires count.Some? ==> HexDigit(line[2 * |bytes|]) == count
    ensures Input.ParseRequest(line, caf) == Some(Input.HexRequest(bytes, if count.Some? then count.value else -1))
  {
    hide HexDigit, HexBytes;
    assert |line| / 2 * 2 == 2 * |bytes|;
  }

  lemma TeeIsNoDigit()
    ensures HexDigit('T') == None
  {
  }

  lemma {:induction false} HexIsDigits(data: seq<byte>)
    ensures forall i :: 0 <= i < |HexOf(data)| ==> HexDigit(HexOf(data)[i]).Some?
  {
    hide HexDigit, Text.Digit;
    if data != [] {
      HexIsDigits(data[..|data| - 1]);
      DigitIsRead(data[|data| - 1] / 16);
      DigitIsRead(data[|data| - 1]);
    }
  }

  /** The frame that a request is, byte by byte: 7DF or 18DB33F1 (with the priority bits that are set), or
      the AT SH header, cut to the width of the protocol; the length and the bytes, or with CAF0 the
      bytes alone; and zeros up to eight bytes, unless AT V1. */
  predicate IsRequest(s: Settings, p: Protocol, bytes: seq<byte>, f: CanFrame) {
    f.id.ext == (p == Can29_500 || p == Can29_250)
    && f.id.value == (var h := s.header.bits; var top := s.canPriority % 32 * 0x100_0000;
                      if f.id.ext then
                        if s.header.digits == 0 then (top + 0xDB33F1) % 0x2000_0000
                        else if s.header.digits == 8 then h % 0x2000_0000
                        else (top + h) % 0x2000_0000
                      else if s.header.digits == 0 then 0x7DF
                      else h % 0x800)
    && var data := (if s.caf then [|bytes|] else []) + bytes;
       |f.data| == (if s.varDlc then |data| else 8)
       && forall i :: 0 <= i < |f.data| ==> f.data[i] == if i < |data| then data[i] else 0
  }

  lemma FrameIsRequest(s: Settings, p: Protocol, bytes: seq<byte>)
    requires 1 <= |bytes| <= (if s.caf then 7 else 8)
    ensures IsRequest(s, p, bytes, RequestFrame(s, p, bytes))
  {
    hide HeaderId;
    IdIsRequests(s, p);
    var data := if s.caf then [|bytes|] + bytes else bytes;
    assert [] + bytes == bytes;
    assert Take(bytes, 7) == bytes || !s.caf;
    assert Take(bytes, 8) == bytes;
  }

  lemma IdIsRequests(s: Settings, p: Protocol)
    ensures var id := RequestId(s, p);
      id.ext == (p == Can29_500 || p == Can29_250)
      && id.value == (var h := s.header.bits; var top := s.canPriority % 32 * 0x100_0000;
                      if id.ext then
                        if s.header.digits == 0 then (top + 0xDB33F1) % 0x2000_0000
                        else if s.header.digits == 8 then h % 0x2000_0000
                        else (top + h) % 0x2000_0000
                      else if s.header.digits == 0 then 0x7DF
                      else h % 0x800)
  {
  }

  /** What the user reads below the answers. */
  function Verdict(c: Course, ctx: Ctx): seq<string> {
    match c
    case NotPermitted(_) => ["BLOCKED"]
    case NotListening(_) => ["CAN ERROR"]
    case RateWrong(_) => ["CAN ERROR"]
    case WindowStopped(_) => ["STOPPED"]
    case NotOpened(_) => ["CAN ERROR"]
    case SendFailed(_, _, _) => ["CAN ERROR"]
    case NotAwaited(_, _, _) => []
    case Talked(_, _, dialogue, health, _) =>
      var d := DialogueRun(ctx, dialogue);
      if d.phase == Over(ByByte) then ["STOPPED"]
      else if d.phase == Over(ByFull) || health.rxOverflow then ["BUFFER FULL"]
      else if ClientOf(ctx, d).log == [] then ["NO DATA"]
      else []
  }

  lemma VerdictIsOutcome(ctx: Ctx, c: Course)
    requires c.Talked? ==> DialogueRun(ctx, c.dialogue).phase.Over?
    ensures OutcomeLines(OutcomeOf(ctx, c)) == Verdict(c, ctx)
  {
    hide DialogueRun, ClientOf;
  }

  function TypedCtx(s: Settings, count: Option<nat>): Ctx {
    var p := s.protocol.current;
    Ctx(s, p, ReceiveFilter(s, p), if count.Some? then count.value else -1)
  }

  /** A request in hex, under a CAN protocol: the course it took is that of the very bytes that were typed, and
      the reply is its log and its outcome. */
  lemma RequestTyped(a: Moment, b: Moment, bytes: seq<byte>, count: Option<nat>, d: Deed) returns (f: CanFrame, text: string)
    requires LineDid(a, b, HexOf(bytes) + CountText(count), d)
    requires 1 <= |bytes| <= (if a.settings.caf then 7 else 8) && (count.Some? ==> count.value < 16)
    requires IsCan(a.settings.protocol.current)
    ensures IsRequest(a.settings, a.settings.protocol.current, bytes, f) && d.Asked?
    ensures var ctx := TypedCtx(a.settings, count);
      Went(ctx, f, a.trace + [Executed(HexOf(bytes) + CountText(count))], d.asked, d.course)
      && b.settings == a.settings && b.log == LogOf(ctx, d.course)
      && b.sum.session.output == a.sum.session.output + text
      && text == ReplyTo(a.settings, b.log, OutcomeOf(ctx, d.course))
  {
    hide HexOf, CountText, Input.ParseRequest, Went, ReplyTo, OutcomeOf, LogOf, RequestFrame, SearchedFor, AtDid,
         ReceiveFilter, IsRequest;
    var line := HexOf(bytes) + CountText(count);
    RequestIsRead(bytes, count, a.settings.caf);
    FrameIsRequest(a.settings, a.settings.protocol.current, bytes);
    f := RequestFrame(a.settings, a.settings.protocol.current, bytes);
    var m := Commands.Starting(a, line);
    assert RequestDid(m, b, line, d);
    assert AskedOn(m.(last := line), b, a.settings.protocol.current, Input.ParseRequest(line, a.settings.caf).value, d);
    text := ReplyTo(a.settings, b.log, OutcomeOf(TypedCtx(a.settings, count), d.course));
  }

  /** The request goes out at most once, as those bytes; by default on 7DF, or 18DB33F1. */
  predicate AtMostOnce(es: seq<Event>, s: Settings, p: Protocol, bytes: seq<byte>) {
    |Requests(es)| <= 1
    && forall e :: e in Requests(es) ==>
         e.SendTried? && IsRequest(s, p, bytes, e.sent)
         && (s.header.digits == 0 && s.canPriority == 0x18 ==>
               e.sent.id == if p == Can29_500 || p == Can29_250 then RawId(true, 0x18DB33F1) else RawId(false, 0x7DF))
  }

  /** Main result: after ATSP (or ATTP) and a digit from 6 to 9, a request in hex opens the controller, and
      sends, at 500 kbit for 6 and 7 and at 250 kbit for 8 and 9, whatever becomes of it; the request goes
      out at most once, as the bytes typed, on 7DF (6, 8) or 18DB33F1 (7, 9), or with the AT SH header. */
  lemma GoesOutAsTyped(a: Moment, m: Moment, b: Moment, verb: string, searched: bool, c: char, bytes: seq<byte>,
                       count: Option<nat>, sp: Deed, d: Deed)
    requires Selecting(a, m, verb, searched, c, sp) && '6' <= c <= '9'
    requires LineDid(m, b, HexOf(bytes) + CountText(count), d)
    requires 1 <= |bytes| <= (if a.settings.caf then 7 else 8) && (count.Some? ==> count.value < 16)
    ensures d.Asked? && |m.trace| < |d.asked|
    ensures var es := d.asked[|m.trace| + 1..];
      Tuned(es, if c == '6' || c == '7' then K500 else K250)
      && AtMostOnce(es, a.settings, [Can11_500, Can29_500, Can11_250, Can29_250][c as int - '6' as int], bytes)
  {
    hide LineDid, HexOf, CountText, Went, ReplyTo, OutcomeOf, LogOf, Tuned, Requests, SetTo, TypedCtx, IsRequest,
         Selecting;
    var p := [Can11_500, Can29_500, Can11_250, Can29_250][c as int - '6' as int];
    ProtocolTyped(a, m, verb, searched, c, sp);
    SelectedIs(a, m, verb, searched, c, p);
    var f, text := RequestTyped(m, b, bytes, count, d);
    var before := m.trace + [Executed(HexOf(bytes) + CountText(count))];
    CtxProtocol(m.settings, count);
    GoesOutAtItsRate(TypedCtx(m.settings, count), f, before, d.asked, d.course);
    RequestGoesOnce(TypedCtx(m.settings, count), f, before, d.asked, d.course);
    CourseFollows(TypedCtx(m.settings, count), f, before, d.asked, d.course);
    SameRequest(a.settings, m.settings, p, bytes, f);
  }

  lemma SelectedIs(a: Moment, m: Moment, verb: string, searched: bool, c: char, p: Protocol)
    requires '6' <= c <= '9' && p == [Can11_500, Can29_500, Can11_250, Can29_250][c as int - '6' as int]
    requires var q := [Unset, J1850Pwm, J1850Vpw, Iso9141, Kwp5Baud, KwpFast, Can11_500, Can29_500, Can11_250, Can29_250]
                       [c as int - '0' as int];
      var sel := ProtocolSel(q, searched || c == '0');
      SetTo(a, m, a.settings.(protocol := sel), if verb == "SP" then sel else a.stored, true)
    ensures m.settings == a.settings.(protocol := ProtocolSel(p, searched)) && IsCan(p)
    ensures if c == '6' || c == '7' then p == Can11_500 || p == Can29_500 else p == Can11_250 || p == Can29_250
  {
  }

  lemma CtxProtocol(s: Settings, count: Option<nat>)
    ensures TypedCtx(s, count).p == s.protocol.current
  {
  }

  lemma CourseFollows(ctx: Ctx, f: CanFrame, before: seq<Event>, after: seq<Event>, c: Course)
    requires Went(ctx, f, before, after, c)
    ensures before <= after
  {
    hide CourseEvents, CourseFits;
  }

  lemma SameRequest(s: Settings, s': Settings, p: Protocol, bytes: seq<byte>, f: CanFrame)
    requires s' == s.(protocol := s'.protocol) && IsRequest(s', p, bytes, f)
    ensures IsRequest(s, p, bytes, f)
    ensures s.header.digits == 0 && s.canPriority == 0x18 ==>
      f.id == if p == Can29_500 || p == Can29_250 then RawId(true, 0x18DB33F1) else RawId(false, 0x7DF)
  {
  }

  /** Main result: what the user reads up to the prompt is the frames of the log, line by line, and then what
      became of the request, in one word or none. */
  lemma ReplyIsRead(a: Moment, b: Moment, bytes: seq<byte>, count: Option<nat>, d: Deed) returns (text: string)
    requires LineDid(a, b, HexOf(bytes) + CountText(count), d)
    requires 1 <= |bytes| <= (if a.settings.caf then 7 else 8) && (count.Some? ==> count.value < 16)
    requires IsCan(a.settings.protocol.current) && forall f :: f in b.log ==> f.data != []
    ensures b.sum.session.output == a.sum.session.output + text && d.Asked?
    ensures Readout.LinesOf(text + LineEnd(b.settings) + ">")
      == Screen(a.settings, false, b.log) + Verdict(d.course, TypedCtx(a.settings, count))
  {
    hide LineDid, HexOf, CountText, Went, ReplyTo, OutcomeOf, LogOf, TypedCtx, Readout.LinesOf, LineEnd, Screen,
         OutcomeLines, Verdict, IsRequest;
    var f;
    f, text := RequestTyped(a, b, bytes, count, d);
    var ctx := TypedCtx(a.settings, count);
    TalkedIsOver(ctx, f, a.trace + [Executed(HexOf(bytes) + CountText(count))], d.asked, d.course);
    VerdictIsOutcome(ctx, d.course);
    Readout.ReplyComesBack(a.settings, b.log, OutcomeOf(ctx, d.course));
  }

  lemma TalkedIsOver(ctx: Ctx, f: CanFrame, before: seq<Event>, after: seq<Event>, c: Course)
    requires Went(ctx, f, before, after, c)
    ensures c.Talked? ==> DialogueRun(ctx, c.dialogue).phase.Over?
  {
    hide CourseEvents, DialogueRun;
  }

  /** A line that is no AT command and no request gets a question mark, and nothing else happens: one character,
      more than 17, one that is no hex digit, or more bytes than a frame takes. */
  lemma NoRequestTyped(a: Moment, b: Moment, line: string, d: Deed)
    requires LineDid(a, b, line, d) && line != "" && !IsAt(line)
    requires |line| == 1 || |line| > 17 || (a.settings.caf && |line| >= 16)
             || exists i :: 0 <= i < |line| && !('0' <= line[i] <= '9') && !('A' <= line[i] <= 'F')
    ensures b.settings == a.settings && b.log == a.log && b.stored == a.stored && b.last == a.last && b.open == a.open
    ensures b.sum.session.output == a.sum.session.output + ("?" + LineEnd(a.settings))
  {
    hide LineEnd, AtDid, SearchedFor, AskedOn, Input.ParseRequest;
    NothingParsed(line, a.settings.caf);
  }

  lemma NothingParsed(line: string, caf: bool)
    requires |line| == 1 || |line| > 17 || (caf && |line| >= 16)
             || exists i :: 0 <= i < |line| && !('0' <= line[i] <= '9') && !('A' <= line[i] <= 'F')
    ensures Input.ParseRequest(line, caf).None?
  {
    if i :| 0 <= i < |line| && !('0' <= line[i] <= '9') && !('A' <= line[i] <= 'F') { assert HexDigit(line[i]).None?; }
  }

  /** Under protocols 1 to 5 a request gets UNABLE TO CONNECT, and nothing happens on the bus. */
  lemma OldProtocolTyped(a: Moment, b: Moment, bytes: seq<byte>, count: Option<nat>, d: Deed)
    requires LineDid(a, b, HexOf(bytes) + CountText(count), d)
    requires 1 <= |bytes| <= (if a.settings.caf then 7 else 8) && (count.Some? ==> count.value < 16)
    requires a.settings.protocol.current in {J1850Pwm, J1850Vpw, Iso9141, Kwp5Baud, KwpFast}
    ensures b.settings == a.settings && b.log == [] && b.open == a.open
    ensures b.sum.session.output == a.sum.session.output + ("UNABLE TO CONNECT" + LineEnd(a.settings))
    ensures WroteOn(a.trace + [Executed(HexOf(bytes) + CountText(count))], b.trace)
  {
    hide HexOf, CountText, Input.ParseRequest, LineEnd, AtDid, RequestDid, Commands.Starting, WroteOn;
    var line := HexOf(bytes) + CountText(count);
    RequestIsRead(bytes, count, a.settings.caf);
    StartingKeeps(a, line);
    OldProtocolRan(Commands.Starting(a, line), b, line, d);
    assert Commands.Starting(a, line).trace == a.trace + [Executed(line)] && Commands.Starting(a, line).open == a.open by {
      StartedOn(a, line);
    }
  }

  lemma StartedOn(a: Moment, line: string)
    ensures var m := Commands.Starting(a, line); m.trace == a.trace + [Executed(line)] && m.open == a.open
  {
  }

  lemma OldProtocolRan(m: Moment, b: Moment, line: string, d: Deed)
    requires RequestDid(m, b, line, d) && Input.ParseRequest(line, m.settings.caf).Some?
    requires m.settings.protocol.current in {J1850Pwm, J1850Vpw, Iso9141, Kwp5Baud, KwpFast}
    ensures b.settings == m.settings && b.log == [] && b.open == m.open && WroteOn(m.trace, b.trace)
    ensures b.sum.session.output == m.sum.session.output + ("UNABLE TO CONNECT" + LineEnd(m.settings))
  {
    hide Input.ParseRequest, LineEnd, SearchedFor, AskedOn, WroteOn, ReplyTo;
    UnableText(m.settings);
  }

  lemma UnableText(s: Settings)
    ensures ReplyTo(s, [], UnableToConnect) == "UNABLE TO CONNECT" + LineEnd(s)
  {
    hide LineEnd;
    var end := LineEnd(s);
    NothingShown(s, false);
    assert ([] + ["UNABLE TO CONNECT"])[..0] == [];
    assert Rendered(["UNABLE TO CONNECT"], end) == Rendered([], end) + "UNABLE TO CONNECT" + end;
    assert [] + ["UNABLE TO CONNECT"] == ["UNABLE TO CONNECT"];
    assert "" + "UNABLE TO CONNECT" == "UNABLE TO CONNECT";
  }

  // ---------- A request before a protocol is known ----------

  function Count(count: Option<nat>): int { if count.Some? then count.value else -1 }

  /** The i-th attempt, from `before` to `after`: everything at the i-th protocol's rate, the request at most
      once, as the bytes typed. */
  predicate AttemptOn(s: Settings, i: nat, bytes: seq<byte>, before: seq<Event>, after: seq<Event>)
    requires i < 4
  {
    before <= after && Tuned(after[|before|..], if i < 2 then K500 else K250)
    && AtMostOnce(after[|before|..], s, [Can11_500, Can29_500, Can11_250, Can29_250][i], bytes)
  }

  function Before(d: Deed, i: nat): seq<Event>
    requires d.Searched? && i <= |d.tries|
  {
    if i == 0 then d.begun else d.tries[i - 1].after
  }

  /** What the user would read below the answers of the i-th attempt. */
  function VerdictOf(s: Settings, d: Deed, i: nat, count: Option<nat>): seq<string>
    requires d.Searched? && i < |d.tries| && i < 4
  {
    var p := [Can11_500, Can29_500, Can11_250, Can29_250][i];
    Verdict(d.tries[i].course, Ctx(s, p, ReceiveFilter(s, p), Count(count)))
  }

  /** Main result: a request typed while the protocol is unknown, that the guard lets through under one of
      the four, is tried under protocols 6, 7, 8 and 9, in that order and each at its own rate, until one
      attempt is answered, or goes out without awaiting an answer, or a byte interrupts; that protocol is
      then in use, and may still be searched for; if no attempt ends the search, nothing is set. */
  lemma SearchTyped(a: Moment, b: Moment, bytes: seq<byte>, count: Option<nat>, d: Deed)
    requires LineDid(a, b, HexOf(bytes) + CountText(count), d) && a.settings.protocol.current == Unset
    requires 1 <= |bytes| <= (if a.settings.caf then 7 else 8) && (count.Some? ==> count.value < 16)
    requires CanBeSearched(a.sum.history, a.settings, Input.HexRequest(bytes, Count(count)))
    ensures d.Searched? && 1 <= |d.tries| <= 4 && b.stored == a.stored
    ensures forall i :: 0 <= i < |d.tries| ==> AttemptOn(a.settings, i, bytes, Before(d, i), d.tries[i].after)
    ensures forall i :: 0 <= i < |d.tries| - 1 ==> Unanswered(VerdictOf(a.settings, d, i, count))
    ensures var i := |d.tries| - 1; var v := VerdictOf(a.settings, d, i, count);
      b.settings
      == if Unanswered(v) || v == ["STOPPED"] then a.settings
         else a.settings.(protocol := ProtocolSel([Can11_500, Can29_500, Can11_250, Can29_250][i], true))
    ensures Unanswered(VerdictOf(a.settings, d, |d.tries| - 1, count)) ==> |d.tries| == 4 && b.log == []
  {
    hide LineDid, HexOf, CountText, Went, ReplyTo, OutcomeOf, LogOf, CanBeSearched, TriedInOrder, SearchGives, AttemptOn,
         Unanswered, VerdictOf, RequestDid, Commands.Starting;
    var req := Input.HexRequest(bytes, Count(count));
    SearchRan(a, b, bytes, count, d);
    GivesTries(a.settings, req, d.tries, d.outcome, b.settings, b.log);
    forall i | 0 <= i < |d.tries| ensures AttemptOn(a.settings, i, bytes, Before(d, i), d.tries[i].after) {
      AttemptTyped(a.settings, req, d, i);
    }
    forall i | 0 <= i < |d.tries|
      ensures Unanswered(VerdictOf(a.settings, d, i, count)) <==> !EndsSearch(ResultOf(a.settings, req, d.tries, i)) {
      AttemptEnds(a.settings, req, d, i, count);
    }
    InOrder(a.settings, req, d.begun, d.tries);
    AttemptEnds(a.settings, req, d, |d.tries| - 1, count);
  }

  /** What goes on to the next protocol. */
  predicate Unanswered(v: seq<string>) { v == ["NO DATA"] || v == ["CAN ERROR"] || v == ["BLOCKED"] }

  lemma SearchRan(a: Moment, b: Moment, bytes: seq<byte>, count: Option<nat>, d: Deed)
    requires LineDid(a, b, HexOf(bytes) + CountText(count), d) && a.settings.protocol.current == Unset
    requires 1 <= |bytes| <= (if a.settings.caf then 7 else 8) && (count.Some? ==> count.value < 16)
    requires CanBeSearched(a.sum.history, a.settings, Input.HexRequest(bytes, Count(count)))
    ensures d.Searched? && d.tries != [] && b.stored == a.stored
    ensures var req := Input.HexRequest(bytes, Count(count));
      TriedInOrder(a.settings, req, d.begun, d.tries)
      && SearchGives(a.settings, req, d.tries, d.outcome, b.settings, b.log)
  {
    hide HexOf, CountText, Input.ParseRequest, Went, ReplyTo, CanBeSearched, TriedInOrder, SearchGives, AtDid, AskedOn;
    var line := HexOf(bytes) + CountText(count);
    RequestIsRead(bytes, count, a.settings.caf);
    var m := Commands.Starting(a, line);
    assert m.sum.history == a.sum.history by { NoNewHistory(a, line); }
    assert RequestDid(m, b, line, d);
    assert SearchedFor(m.(last := line), b, Input.ParseRequest(line, a.settings.caf).value, d);
  }

  lemma NoNewHistory(a: Moment, line: string)
    ensures Commands.Starting(a, line).sum.history == a.sum.history
  {
    assert a.sum.history + [] == a.sum.history;
  }

  lemma GivesTries(s: Settings, req: Input.HexRequest, tries: seq<Attempt>, o: Outcome, s': Settings, log: seq<CanFrame>)
    requires SearchGives(s, req, tries, o, s', log)
    ensures 1 <= |tries| <= 4
    ensures var i := |tries| - 1; var r := ResultOf(s, req, tries, i);
      s' == (if r == Answered || r == BufferFull || r == SentOnly
             then s.(protocol := ProtocolSel([Can11_500, Can29_500, Can11_250, Can29_250][i], true)) else s)
      && (!EndsSearch(r) ==> |tries| == 4 && log == [])
  {
    hide ResultOf, LogOf, ContextOf;
  }

  lemma InOrder(s: Settings, req: Input.HexRequest, begun: seq<Event>, tries: seq<Attempt>)
    requires TriedInOrder(s, req, begun, tries)
    ensures forall i :: 0 <= i < |tries| - 1 ==> !EndsSearch(ResultOf(s, req, tries, i))
  {
    hide AttemptWent, ResultOf;
  }

  lemma AttemptTyped(s: Settings, req: Input.HexRequest, d: Deed, i: nat)
    requires d.Searched? && i < |d.tries| <= 4 && TriedInOrder(s, req, d.begun, d.tries)
    requires 1 <= |req.bytes| <= (if s.caf then 7 else 8)
    ensures AttemptOn(s, i, req.bytes, Before(d, i), d.tries[i].after)
  {
    hide Went, RequestFrame, Tuned, Requests, IsRequest;
    assert AttemptWent(s, req, d.begun, d.tries, i);
    var p := SEARCH_ORDER[i];
    assert p == [Can11_500, Can29_500, Can11_250, Can29_250][i];
    var f, ctx, before, after := RequestFrame(s, p, req.bytes), ContextOf(s, p, req), Before(d, i), d.tries[i].after;
    GoesOutAtItsRate(ctx, f, before, after, d.tries[i].course);
    RequestGoesOnce(ctx, f, before, after, d.tries[i].course);
    CourseFollows(ctx, f, before, after, d.tries[i].course);
    FrameIsRequest(s, p, req.bytes);
    SameRequest(s, s, p, req.bytes, f);
  }

  lemma AttemptEnds(s: Settings, req: Input.HexRequest, d: Deed, i: nat, count: Option<nat>)
    requires d.Searched? && i < |d.tries| <= 4 && TriedInOrder(s, req, d.begun, d.tries) && req.maxResponses == Count(count)
    ensures var v, r := VerdictOf(s, d, i, count), ResultOf(s, req, d.tries, i);
      (Unanswered(v) <==> !EndsSearch(r)) && (v == ["STOPPED"] <==> r == Stopped)
      && (!Unanswered(v) && v != ["STOPPED"] ==> r == Answered || r == BufferFull || r == SentOnly)
  {
    hide Went, RequestFrame, OutcomeOf, LogOf, ReceiveFilter, Verdict;
    assert AttemptWent(s, req, d.begun, d.tries, i);
    var p := SEARCH_ORDER[i];
    assert p == [Can11_500, Can29_500, Can11_250, Can29_250][i];
    var ctx := ContextOf(s, p, req);
    TalkedIsOver(ctx, RequestFrame(s, p, req.bytes), Before(d, i), d.tries[i].after, d.tries[i].course);
    VerdictIsOutcome(ctx, d.tries[i].course);
    NotUnable(ctx, RequestFrame(s, p, req.bytes), Before(d, i), d.tries[i].after, d.tries[i].course);
    OutcomeText(OutcomeOf(ctx, d.tries[i].course));
  }

  lemma NotUnable(ctx: Ctx, f: CanFrame, before: seq<Event>, after: seq<Event>, c: Course)
    requires Went(ctx, f, before, after, c)
    ensures OutcomeOf(ctx, c) != UnableToConnect
  {
    hide Went;
    RequestGoesOnce(ctx, f, before, after, c);
  }

  lemma OutcomeText(o: Outcome)
    requires o != UnableToConnect
    ensures var v := OutcomeLines(o);
      (Unanswered(v) <==> !EndsSearch(o)) && (v == ["STOPPED"] <==> o == Stopped)
      && (!Unanswered(v) && v != ["STOPPED"] <==> o == Answered || o == BufferFull || o == SentOnly)
  {
    if o != Answered && o != SentOnly { assert OutcomeLines(o)[0] != ""; }
  }

  // ---------- The monitor, the survey and the self-test ----------

  /** A line that is the name of a row that acts. */
  lemma ActiveTyped(a: Moment, b: Moment, line: string, r: Row, d: Deed)
    requires LineDid(a, b, line, d) && line == "AT" + Name(r) && NoneLonger(Name(r), |Name(r)|)
    requires r == Ma || r == Row.Survey || r == Row.SelfTest || r == Cs
    ensures d.Looked? && ActiveDid(Commands.Starting(a, line), b, r, NO_ARGS, Printed, d.row)
  {
    hide LineDid, NoneLonger, ActiveDid, Commands.Starting;
    AtTyped(a, b, Name(r), d);
    ActiveRan(Commands.Starting(a, line), b, r, d);
  }

  lemma ActiveRan(m: Moment, b: Moment, r: Row, d: Deed)
    requires AtDid(m, b, Name(r), d) && NoneLonger(Name(r), |Name(r)|)
    requires r == Ma || r == Row.Survey || r == Row.SelfTest || r == Cs
    ensures d.Looked? && ActiveDid(m, b, r, NO_ARGS, Printed, d.row)
  {
    hide AtDid, NoneLonger, ActiveDid, PassiveDid, Told, EndOf;
    assert Name(r)[|Name(r)|..] == "";
    RowIsRun(m, b, Name(r), r, NO_ARGS, d);
    Prints(m, d.mid, r, d.reply, d.row);
  }

  lemma Prints(m: Moment, mid: Moment, r: Row, reply: AtReply, d: RowDeed)
    requires ActiveDid(m, mid, r, NO_ARGS, reply, d) && (r == Ma || r == Row.Survey || r == Row.SelfTest || r == Cs)
    ensures reply == Printed
  {
    hide MonitorDid, SurveyDid, SelfTestDid, Told;
  }

  /** ATMA resets the controller and opens it listen-only, at 250 kbit under protocols 8 and 9, else at 500; without
      a filter that was set it shows every frame. */
  lemma MonitorTyped(a: Moment, b: Moment, d: Deed) returns (acc: Acceptance, ok: bool)
    requires LineDid(a, b, "ATMA", d)
    ensures var p := a.settings.protocol.current;
      a.trace + [Executed("ATMA"), Closed,
                 Opened(if p == Can11_250 || p == Can29_250 then K250 else K500, ListenOnly, acc, ok)] <= b.trace
    ensures a.settings.rx == RxFilter.Auto ==> forall id :: acc.Accepts(id)
    ensures b.settings == a.settings
    ensures !ok ==> b.sum.session.output == a.sum.session.output + ("CAN ERROR" + LineEnd(a.settings))
  {
    hide LineDid, LineEnd, ActiveDid;
    NamesDecide("MA", 2);
    ActiveTyped(a, b, "ATMA", Ma, d);
    acc, ok := MonitorRan(Commands.Starting(a, "ATMA"), b, d.row);
    StartingKeeps(a, "ATMA");
    assert a.trace + [Executed("ATMA")] + [Closed, Opened(K500, ListenOnly, acc, ok)]
      == a.trace + [Executed("ATMA"), Closed, Opened(K500, ListenOnly, acc, ok)];
    assert a.trace + [Executed("ATMA")] + [Closed, Opened(K250, ListenOnly, acc, ok)]
      == a.trace + [Executed("ATMA"), Closed, Opened(K250, ListenOnly, acc, ok)];
  }

  lemma MonitorRan(m: Moment, b: Moment, d: RowDeed) returns (acc: Acceptance, ok: bool)
    requires ActiveDid(m, b, Ma, NO_ARGS, Printed, d)
    ensures var p := m.settings.protocol.current;
      m.trace + [Closed, Opened(if p == Can11_250 || p == Can29_250 then K250 else K500, ListenOnly, acc, ok)] <= b.trace
    ensures m.settings.rx == RxFilter.Auto ==> forall id :: acc.Accepts(id)
    ensures b.settings == m.settings
    ensures !ok ==> b.sum.session.output == m.sum.session.output + ("CAN ERROR" + LineEnd(m.settings))
  {
    hide LineEnd, ReceiveFilter, ViewRun, MonitorText;
    acc, ok := MonitorFilter(m.settings), d.ran;
    var opening := m.trace + [Closed, Opened(BitrateOf(MonitorProtocol(m.settings)), ListenOnly, acc, ok)];
    assert opening <= b.trace by {
      if ok { assert opening <= opening + d.view; }
    }
  }

  /** This stretch of the record begins with a reset and an open in this mode at the i-th rate. */
  predicate OpenedAt(tr: seq<Event>, from: nat, i: nat, mode: CanMode)
    requires i < 4
  {
    from + 2 <= |tr| && tr[from] == Closed
    && var e := tr[from + 1]; e.Opened? && e.rate == [K500, K250, K125, K100][i] && e.openMode == mode
  }

  lemma RateText(i: nat)
    requires i < 4
    ensures SURVEY_RATES[i] == [K500, K250, K125, K100][i]
    ensures NumberText(Kbit(SURVEY_RATES[i])) == ["500", "250", "125", "100"][i]
  {
    assert NumberText(50) == "50" && NumberText(25) == "25" && NumberText(12) == "12" && NumberText(10) == "10";
  }

  /** The line for the i-th rate: its name, and what was found there. */
  predicate LineSays(line: string, i: nat, r: RateReport)
    requires i < 4
  {
    var found := if r.setupFailed then "SETUP FAILED"
                 else NumberText(r.frames) + " frames, errors " + NumberText(r.errors);
    ["500 kbit: ", "250 kbit: ", "125 kbit: ", "100 kbit: "][i] + found <= line || |line| == 127
  }

  /** Which verdict, and when. */
  predicate VerdictSays(v: seq<string>, rs: seq<Rated>)
    requires 1 <= |rs| <= 4
  {
    if rs[|rs| - 1].report.frames > 0 then
      v == ["WIRING: OK, bus decoding cleanly at " + ["500", "250", "125", "100"][|rs| - 1] + " kbit"]
    else if exists i :: 0 <= i < |rs| && rs[i].report.errors > 0 then
      v == ["WIRING: CONNECTED to a live bus, but nothing decoded:",
            "swap CAN-H and CAN-L, or the bus runs at a rate not tried"]
    else
      v == ["WIRING: NOT CONNECTED, zero frames and zero errors at every rate:",
            "wrong OBD pins, broken cable, or bus asleep (ignition on?)"]
  }

  /** Main result: AT#SURVEY resets the controller and opens it listen-only at 500, 250, 125 and 100 kbit, in that
      order, as far as it gets; the i-th line it prints names the rate at which the controller was opened for it, with the
      frames and errors found there; and the wiring is called OK at the rate of the last line exactly if frames
      were decoded there, connected if there were errors at any rate, and else not connected. */
  lemma SurveyTyped(a: Moment, b: Moment, d: Deed)
    requires LineDid(a, b, "AT#SURVEY", d)
    ensures d.Looked? && d.row.SurveyMade? && |d.row.rates| <= 4
    ensures var rs, done := d.row.rates, d.row.finished;
      b.sum.session.output
      == a.sum.session.output
         + Rendered(SurveyLines(rs) + (if done then SurveyVerdict(rs) else ["STOPPED"]), LineEnd(a.settings))
    ensures var rs := d.row.rates;
      |SurveyLines(rs)| == |rs| && forall i :: 0 <= i < |rs| ==>
        OpenedAt(b.trace, rs[i].from, i, ListenOnly) && LineSays(SurveyLines(rs)[i], i, rs[i].report)
    ensures var rs := d.row.rates;
      d.row.finished && (exists i :: 0 <= i < |rs| && !rs[i].report.setupFailed) ==> VerdictSays(SurveyVerdict(rs), rs)
  {
    hide LineDid, LineEnd, ActiveDid, Rendered, SurveyLines, SurveyVerdict, OpenedAt, LineSays, VerdictSays;
    NamesDecide("#SURVEY", 7);
    ActiveTyped(a, b, "AT#SURVEY", Row.Survey, d);
    var m := Commands.Starting(a, "AT#SURVEY");
    StartingKeeps(a, "AT#SURVEY");
    SurveyRan(m, b, d.row);
    var rs := d.row.rates;
    forall i | 0 <= i < |rs| ensures |SurveyLines(rs)| == |rs| && OpenedAt(b.trace, rs[i].from, i, ListenOnly)
      && LineSays(SurveyLines(rs)[i], i, rs[i].report) {
      RateSurveyed(m, b, d.row, i);
      LineNamesRate(rs, i);
    }
    if rs == [] { NoLines(); }
    if d.row.finished && AnyConfigured(rs) { VerdictNamesRate(rs); }
  }

  lemma NoLines()
    ensures SurveyLines([]) == [] && LoopbackLines([]) == []
  {
  }

  lemma SurveyRan(m: Moment, b: Moment, d: RowDeed)
    requires ActiveDid(m, b, Row.Survey, NO_ARGS, Printed, d)
    ensures d.SurveyMade? && |d.rates| <= 4
    ensures SurveyDid(m.settings, m.trace, b.trace, m.sum, b.sum, d.rates, d.finished, d.cut)
    ensures b.sum.session.output == m.sum.session.output
      + Rendered(SurveyLines(d.rates) + (if d.finished then SurveyVerdict(d.rates) else ["STOPPED"]), LineEnd(m.settings))
  {
    hide RatedOnRecord, CutOnRecord, Rendered, LineEnd, SurveyLines, SurveyVerdict;
  }

  lemma RateSurveyed(m: Moment, b: Moment, d: RowDeed, i: nat)
    requires d.SurveyMade? && i < |d.rates| <= 4
    requires SurveyDid(m.settings, m.trace, b.trace, m.sum, b.sum, d.rates, d.finished, d.cut)
    ensures OpenedAt(b.trace, d.rates[i].from, i, ListenOnly)
  {
    hide Rendered, LineEnd, SurveyLines, SurveyVerdict, SurveyShows, StopsAtFrames;
    var r := d.rates[i];
    var tr := if d.finished then b.trace else b.trace[..d.cut.from];
    assert RatedOnRecord(tr, |m.trace| + 1, d.rates);
    assert RatedAt(tr, |m.trace| + 1, d.rates, i);
    assert tr[r.from..r.to] == b.trace[r.from..r.to];
    RateText(i);
    StretchOpens(b.trace, r, i);
  }

  lemma StretchOpens(tr: seq<Event>, r: Rated, i: nat)
    requires i < 4 && r.from <= r.to <= |tr|
    requires SurveyShows(tr[r.from..r.to], [K500, K250, K125, K100][i], SURVEY_WINDOW_MS, true, r.report, r.ids, SURVEY_IDS)
    ensures OpenedAt(tr, r.from, i, ListenOnly)
  {
    hide ListenRun, Gathered, IdsOf;
    var es := tr[r.from..r.to];
    assert 2 <= |es| && es[0] == es[..2][0] && es[1] == es[..2][1];
    assert es[0] == tr[r.from] && es[1] == tr[r.from + 1];
  }

  lemma {:induction false} LineNamesRate(rs: seq<Rated>, i: nat)
    requires i < |rs| <= 4
    ensures |SurveyLines(rs)| == |rs|
    ensures LineSays(SurveyLines(rs)[i], i, rs[i].report)
  {
    hide SurveyLine, LineSays;
    var front, last := rs[..|rs| - 1], rs[|rs| - 1];
    SurveyLineNames(|front|, last.report, last.ids);
    if front == [] { NoLines(); } else { LineNamesRate(front, if i < |front| then i else 0); }
  }

  lemma SurveyLineNames(i: nat, r: RateReport, ids: seq<CanId>)
    requires i < 4
    ensures LineSays(SurveyLine(SURVEY_RATES[i], r, ids), i, r)
  {
    hide NumberText, Kbit, IdList;
    RateText(i);
    var found := if r.setupFailed then "SETUP FAILED"
                 else NumberText(r.frames) + " frames, errors " + NumberText(r.errors);
    var named := if ids == [] then "" else ", ids" + IdList(ids) + (if |ids| == SURVEY_IDS then " ..." else "");
    var rest := if r.setupFailed then "" else named;
    var name := NumberText(Kbit(SURVEY_RATES[i])) + " kbit: ";
    assert name == ["500 kbit: ", "250 kbit: ", "125 kbit: ", "100 kbit: "][i];
    assert name + (found + rest) == (name + found) + rest;
    assert SurveyLine(SURVEY_RATES[i], r, ids) == Clipped((name + found) + rest) by {
      assert found + rest == if r.setupFailed then "SETUP FAILED"
                             else NumberText(r.frames) + " frames, errors " + NumberText(r.errors)
                                  + named;
    }
  }

  lemma VerdictNamesRate(rs: seq<Rated>)
    requires |rs| <= 4 && AnyConfigured(rs)
    ensures rs != [] && VerdictSays(SurveyVerdict(rs), rs)
  {
    hide NumberText, Kbit, ErrorsOf;
    SomethingRated(rs);
    ErrorsAnywhere(rs);
    if rs[|rs| - 1].report.frames > 0 {
      RateText(|rs| - 1);
      WiringOk(SURVEY_RATES[|rs| - 1], ["500", "250", "125", "100"][|rs| - 1], ErrorsOf(rs));
    }
  }

  lemma SomethingRated(rs: seq<Rated>)
    requires AnyConfigured(rs)
    ensures rs != []
  {
  }

  lemma WiringOk(rate: Bitrate, kbit: string, errors: nat)
    requires NumberText(Kbit(rate)) == kbit && |kbit| == 3
    ensures WiringLines(Some(rate), errors) == ["WIRING: OK, bus decoding cleanly at " + kbit + " kbit"]
  {
    hide NumberText, Kbit;
  }

  lemma {:induction false} ErrorsAnywhere(rs: seq<Rated>)
    ensures ErrorsOf(rs) > 0 <==> exists i :: 0 <= i < |rs| && rs[i].report.errors > 0
  {
    if rs != [] {
      var front, last := rs[..|rs| - 1], rs[|rs| - 1];
      ErrorsAnywhere(front);
      if last.report.errors > 0 { assert rs[|rs| - 1].report.errors > 0; }
      if i :| 0 <= i < |front| && front[i].report.errors > 0 { assert rs[i].report.errors > 0; }
      if i :| 0 <= i < |rs| && rs[i].report.errors > 0 { assert i < |front| ==> front[i].report.errors > 0; }
    }
  }

  /** The frame 745 02 10 C0 was sent in loopback, and the next that came back was the same. */
  predicate CameBack(tr: seq<Event>, from: nat, to: nat) {
    from + 5 <= to <= |tr| && tr[from + 3].SendTried? && tr[from + 3].sentOk && tr[from + 3].sendMode == Some(Loopback)
    && tr[from + 3].sent == Frame(RawId(false, 0x745), [0x02, 0x10, 0xC0, 0, 0, 0, 0, 0])
    && tr[to - 2] == Received(tr[from + 3].sent, Some(Loopback))
  }

  /** Main result: AT#SELFTEST opens the controller in loopback at 500, 250, 125 and 100 kbit, in that order, as far as it
      gets; the i-th rate's line names that rate, and says PASS only if the frame sent there came back. */
  lemma SelfTestTyped(a: Moment, b: Moment, d: Deed)
    requires LineDid(a, b, "AT#SELFTEST", d)
    ensures d.Looked? && d.row.TestMade? && |d.row.loops| <= 4
    ensures var rs := d.row.loops;
      var last := if exists i :: 0 <= i < |rs| && rs[i].result == Pass then ["SELFTEST: PASS"] else ["SELFTEST: FAIL"];
      b.sum.session.output
      == a.sum.session.output
         + Rendered(["MCP2515 " + d.row.detail + (if d.row.present then ": PASS" else ": FAIL")] + LoopbackLines(rs)
                    + (if rs != [] && rs[|rs| - 1].result == LoopInterrupted then [] else last), LineEnd(a.settings))
    ensures var rs := d.row.loops;
      |LoopbackLines(rs)| == |rs| && forall i :: 0 <= i < |rs| ==>
        OpenedAt(b.trace, rs[i].from, i, Loopback)
        && (LoopbackLines(rs)[i] == "LOOPBACK " + ["500", "250", "125", "100"][i] + " kbit: PASS" <==> rs[i].result == Pass)
        && (rs[i].result == Pass ==> CameBack(b.trace, rs[i].from, rs[i].to))
  {
    hide LineDid, LineEnd, ActiveDid, Rendered, OpenedAt, LoopbackLines, CameBack;
    NamesDecide("#SELFTEST", 9);
    ActiveTyped(a, b, "AT#SELFTEST", Row.SelfTest, d);
    var m := Commands.Starting(a, "AT#SELFTEST");
    StartingKeeps(a, "AT#SELFTEST");
    SelfTestRan(m, b, d.row);
    var rs := d.row.loops;
    forall i | 0 <= i < |rs| ensures |LoopbackLines(rs)| == |rs| && OpenedAt(b.trace, rs[i].from, i, Loopback)
      && (LoopbackLines(rs)[i] == "LOOPBACK " + ["500", "250", "125", "100"][i] + " kbit: PASS" <==> rs[i].result == Pass)
      && (rs[i].result == Pass ==> CameBack(b.trace, rs[i].from, rs[i].to)) {
      RateLooped(m, b, d.row, i);
      LoopLineSays(rs, i);
    }
    if rs == [] { NoLines(); }
  }

  lemma SelfTestRan(m: Moment, b: Moment, d: RowDeed)
    requires ActiveDid(m, b, Row.SelfTest, NO_ARGS, Printed, d)
    ensures d.TestMade? && |d.loops| <= 4
    ensures SelfTestDid(m.settings, m.trace, b.trace, m.sum, b.sum, d.present, d.detail, d.loops)
    ensures b.sum.session.output
      == m.sum.session.output + Rendered(SelfTestText(d.present, d.detail, d.loops), LineEnd(m.settings))
  {
    hide LoopedOnRecord, Rendered, LineEnd, SelfTestText;
  }

  lemma RateLooped(m: Moment, b: Moment, d: RowDeed, i: nat)
    requires d.TestMade? && i < |d.loops| <= 4
    requires SelfTestDid(m.settings, m.trace, b.trace, m.sum, b.sum, d.present, d.detail, d.loops)
    ensures var r := d.loops[i];
      OpenedAt(b.trace, r.from, i, Loopback) && (r.result == Pass ==> CameBack(b.trace, r.from, r.to))
  {
    hide Rendered, LineEnd, SelfTestText, LoopShows, LoopedThrough;
    assert LoopedAt(b.trace, |m.trace| + 2, d.loops, i);
    RateText(i);
    LoopStretch(b.trace, d.loops[i], i);
  }

  lemma LoopStretch(tr: seq<Event>, r: Looped, i: nat)
    requires i < 4 && r.from <= r.to <= |tr|
    requires LoopShows(tr[r.from..r.to], [K500, K250, K125, K100][i], r.result, r.course)
    ensures OpenedAt(tr, r.from, i, Loopback) && (r.result == Pass ==> CameBack(tr, r.from, r.to))
  {
    hide AwaitRun, ProbeEvents, ProbeGives;
    var es := tr[r.from..r.to];
    assert es[0] == tr[r.from] && es[1] == tr[r.from + 1];
    if r.result == Pass {
      PassedProbe(es, [K500, K250, K125, K100][i], r.course);
      assert es[3] == tr[r.from + 3] && es[|es| - 2] == tr[r.to - 2];
    }
  }

  /** A passed probe was sent, and the last thing before the close was its return. */
  lemma PassedProbe(es: seq<Event>, rate: Bitrate, c: ProbeCourse)
    requires LoopShows(es, rate, Pass, c)
    ensures 5 <= |es| && c.ProbeAwaited? && es[3] == ProbeEvent(rate, true, c.onTcp)
    ensures es[|es| - 2] == Received(ProbeFrame(), Some(Loopback))
  {
    hide AwaitRun, ProbeFrame;
    WakesOnFrame(After(c.start, LOOPBACK_WAIT_MS), c.wait, ProbeFrame());
    var head := [Closed, Opened(rate, Loopback, ACCEPT_ALL, true)]
                + [Judged(ProbeFrame()), ProbeEvent(rate, true, c.onTcp), Clock(c.start)];
    assert es == head + c.wait + [Closed];
    assert es[3] == head[3];
  }

  lemma WakesOnFrame(d: Deadline, wait: seq<Event>, f: CanFrame)
    requires AwaitRun(d, Some(Loopback), wait) == Woken(GotFrame(f))
    ensures wait != [] && wait[|wait| - 1] == Received(f, Some(Loopback))
  {
  }

  lemma {:induction false} LoopLineSays(rs: seq<Looped>, i: nat)
    requires i < |rs| <= 4
    ensures |LoopbackLines(rs)| == |rs|
    ensures LoopbackLines(rs)[i] == "LOOPBACK " + ["500", "250", "125", "100"][i] + " kbit: PASS" <==> rs[i].result == Pass
  {
    hide LoopbackLine;
    var front, last := rs[..|rs| - 1], rs[|rs| - 1];
    LoopTextSays(|front|, last.result);
    if front == [] { NoLines(); } else { LoopLineSays(front, if i < |front| then i else 0); }
  }

  lemma LoopTextSays(i: nat, r: LoopbackResult)
    requires i < 4
    ensures LoopbackLine(SURVEY_RATES[i], r) == "LOOPBACK " + ["500", "250", "125", "100"][i] + " kbit: PASS" <==> r == Pass
  {
    hide NumberText, Kbit;
    RateText(i);
    var line := LoopbackLine(SURVEY_RATES[i], r);
    var pass := "LOOPBACK " + ["500", "250", "125", "100"][i] + " kbit: PASS";
    if r == Fail { assert line[19..] == "FAIL" && pass[19..] == "PASS"; }
    if r == LoopInterrupted { assert line[0] == 'S'; }
    if r == SetupFailed { assert |line| != |pass|; }
  }

  /** ATCS prints the controller's error counters, in hex, as they were read. */
  lemma CountersTyped(a: Moment, b: Moment, d: Deed) returns (h: CanHealth)
    requires LineDid(a, b, "ATCS", d)
    ensures a.trace + [Executed("ATCS"), Health(h)] <= b.trace
    ensures b.sum.session.output
      == a.sum.session.output + ("T:" + Hexed(h.tec, 2) + " R:" + Hexed(h.rec, 2) + LineEnd(a.settings))
  {
    hide LineDid, LineEnd, ActiveDid;
    NamesDecide("CS", 2);
    ActiveTyped(a, b, "ATCS", Cs, d);
    var m := Commands.Starting(a, "ATCS");
    StartingKeeps(a, "ATCS");
    h := CountersRan(m, b, d.row);
    TwoHexDigits(h.tec);
    TwoHexDigits(h.rec);
    assert a.trace + [Executed("ATCS")] + [Health(h)] == a.trace + [Executed("ATCS"), Health(h)];
  }

  lemma CountersRan(m: Moment, b: Moment, d: RowDeed) returns (h: CanHealth)
    requires ActiveDid(m, b, Cs, NO_ARGS, Printed, d)
    ensures m.trace + [Health(h)] <= b.trace
    ensures b.sum.session.output
      == m.sum.session.output + ("T:" + Text.ByteText(h.tec) + " R:" + Text.ByteText(h.rec) + LineEnd(m.settings))
  {
    hide LineEnd, Text.ByteText;
    h := d.health;
  }

  lemma TwoHexDigits(v: byte)
    ensures Hexed(v, 2) == Text.ByteText(v)
  {
    hide Text.Digit;
    assert Hexed(v / 16 / 16, 0) == "";
    assert Hexed(v / 16, 1) == [Text.Digit(v / 16)];
  }
}
