/** The command interpreter (lib/elm/src/elm.cpp): one session at a time, one line at a time, and what
    every run of it keeps. */
module ElmCore {
  import opened CanTypes
  import opened Config
  import opened WriteGuard
  import opened Links
  import opened Bus
  import opened Record
  import opened Exchange
  import opened Procedures
  import opened AtTable
  import opened Replies
  import opened Handlers
  import opened Commands
  import Input

  class Elm {
    const hal: Hal
    const guard: Guard
    const link: LinkState
    const line: Input.LineBuffer
    const log: RxLog
    var settings: Settings
    /** The protocol that a reset goes back to. */
    var stored: ProtocolSel
    /** The request that a bare CR repeats, "" if none. */
    var last: string
    var linkSwitches: byte
    ghost const objects: set<object>

    ghost predicate Apart() {
      objects == hal.Repr() + guard.Repr() + {link, line, line.buf, log, log.frames}
      && hal.Repr() !! guard.Repr() !! {link} !! {line, line.buf} !! {log, log.frames} !! {this}
    }

    ghost function Now(): Moment
      reads this`settings, this`stored, this`last, hal`trace, hal`sum, link`open, log, log.frames
      requires log.Valid()
    {
      Moment(hal.trace, hal.sum, settings, stored, last, log.Contents(), link.open)
    }

    /** A line runs: the bus side is in order, the controller silent, and the repeatable request is a
        line run in this session. */
    ghost predicate Ready()
      reads this`settings, this`last, hal, hal.mux, hal.mux.outBuf, hal.mux.tcp, guard, guard.heard, guard.heard.ids, link, log
    {
      Apart() && World(hal, guard, link) && AtPrompt(hal) && log.Valid() && FlowReady(settings)
      && Repeatable(last, hal.sum.session)
    }

    /** The same while no line runs. */
    ghost predicate Idle()
      reads this`settings, this`last, hal, hal.mux, hal.mux.outBuf, hal.mux.tcp, guard, guard.heard, guard.heard.ids, link, log
    {
      Apart() && AtRest(hal, guard, link) && AtPrompt(hal) && log.Valid() && FlowReady(settings)
      && Repeatable(last, hal.sum.session)
    }

    /** The unfinished line is what was typed in this session since the last CR, and every CR ran a
        line. */
    ghost predicate Typing()
      reads hal`sum, line, line.buf
    {
      line.Valid() && line.pushed == hal.sum.session.keys.line && AllRun(hal.sum.session)
    }

    /** Between two bytes. */
    ghost predicate Valid()
      reads this, objects, hal, hal.mux, hal.mux.outBuf, hal.mux.tcp, guard, guard.heard, guard.heard.ids, link
      reads line, line.buf, log
    {
      Apart() && Idle() && Typing() && linkSwitches == hal.sum.session.moves % 0x100
    }

    /** After a poll: the session may just have moved, and the interpreter has not noticed yet. */
    ghost predicate Polled()
      reads this, objects, hal, hal.mux, hal.mux.outBuf, hal.mux.tcp, guard, guard.heard, guard.heard.ids, link
      reads line, line.buf, log
    {
      Apart() && AtPrompt(hal) && log.Valid() && FlowReady(settings) && line.Valid() && AllRun(hal.sum.session)
      && hal.Valid() && guard.Valid() && hal.safe && guard.history == hal.sum.history && link.Agrees(hal)
      && !hal.sum.session.running
      && if linkSwitches == hal.sum.session.moves % 0x100
         then Trusted(hal.sum.session) && Repeatable(last, hal.sum.session) && line.pushed == hal.sum.session.keys.line
         else Ends(hal.trace, Moved(hal.sum.session.onTcp)) && hal.sum.session.keys == Keys([], [])
    }

    constructor (hal: Hal)
      requires hal.Valid() && hal.safe && hal.trace == [] && hal.sum == FRESH && hal.mode == None && hal.vouched == None
      ensures Valid() && fresh(objects - hal.Repr()) && this.hal == hal && Now() == SWITCHED_ON
    {
      hide Hal.Valid, Guard.Valid, World, RxLog.Valid, Input.LineBuffer.Valid, Valid, Typing, Ready,
           Hal.Recorded, LinkState.Agrees, LinkMux.Valid, Idle;
      ghost var world := hal.Repr();
      var g := new Guard();
      assert world !! g.Repr();
      var k := new LinkState();
      assert world + g.Repr() !! {k};
      var l := new Input.LineBuffer();
      assert world + g.Repr() + {k} !! {l, l.buf};
      var r := new RxLog();
      assert world + g.Repr() + {k} + {l, l.buf} !! {r, r.frames};
      this.hal, guard, link, line, log := hal, g, k, l, r;
      settings, stored, last, linkSwitches := DEFAULTS, ProtocolSel(Unset, true), "", 0;
      objects := hal.Repr() + g.Repr() + {k, l, l.buf, r, r.frames};
      new;
      assert Valid() by { StartsValid(this); }
    }

    /** Power-up. */
    method Begin()
      requires Valid() && hal.sum.session.crs == 0
      modifies hal.Repr()
      ensures Valid() && ToldAndPrompted(old(Now()), Now(), BANNER + EndOf(Now()))
    {
      hide Hal.Valid, Guard.Valid, RxLog.Contents, Input.LineBuffer.Valid, LineEnd, AtRest, Told, Outputting;
      ghost var a := Now();
      Put(BANNER);
      ghost var b := Now();
      Put(LineEnd(settings));
      ToldTwice(a, b, Now(), BANNER, LineEnd(settings));
      FirstPrompt(a, BANNER + LineEnd(settings));
    }

    method FirstPrompt(ghost a: Moment, ghost text: string)
      requires Idle() && hal.sum.session.crs == 0 && Told(a, Now(), text)
      modifies hal.Repr()
      ensures Idle() && ToldAndPrompted(a, Now(), text)
      ensures hal.sum.session == old(hal.sum.session).(output := hal.sum.session.output)
    {
      hide Hal.Valid, Guard.Valid, RxLog.Contents, Told;
      ghost var told := Now();
      hal.Prompt();
      Prompting(a, told, Now(), text);
    }

    /** Output while no line runs. */
    method Put(text: string)
      requires Idle()
      modifies hal.Repr()
      ensures Idle() && Told(old(Now()), Now(), text) && |hal.script| <= |old(hal.script)|
      ensures hal.sum.session == old(hal.sum.session).(output := old(hal.sum.session.output) + text)
    {
      hide Hal.Valid, Guard.Valid, RxLog.Contents, Next;
      WroteAdds(hal.sum, text, hal.mode);
      hal.Write(text);
    }

    method Say(text: string)
      requires Ready()
      modifies hal.Repr()
      ensures Ready() && Told(old(Now()), Now(), text)
      ensures |hal.script| <= |old(hal.script)|
    {
      hide Hal.Valid, Guard.Valid, World, RxLog.Contents;
      WriteText(hal, guard, link, text);
    }

    /** One line. */
    method Answer(text: string)
      requires Ready()
      modifies hal.Repr()
      ensures Ready() && Told(old(Now()), Now(), text + EndOf(Now()))
      ensures |hal.script| <= |old(hal.script)|
    {
      hide Hal.Valid, Guard.Valid, World, RxLog.Contents;
      Print(hal, guard, link, text, LineEnd(settings));
    }

    /** The logged frames, then the outcome. */
    method Report(o: Outcome)
      requires Ready()
      modifies hal.Repr()
      ensures Ready() && Told(old(Now()), Now(), ReplyTo(settings, log.Contents(), o))
      ensures |hal.script| <= |old(hal.script)|
    {
      hide Hal.Valid, Guard.Valid, World, Rendered, Screen, LineEnd, RxLog.Contents;
      ghost var shown := Screen(settings, false, log.Contents());
      OutputJoins(hal.sum, Rendered(shown, LineEnd(settings)), Rendered(OutcomeLines(o), LineEnd(settings)));
      RenderedConcat(shown, OutcomeLines(o), LineEnd(settings));
      PrintFrames(hal, guard, link, settings, log);
      PrintLines(hal, guard, link, OutcomeLines(o), LineEnd(settings));
    }

    /** A request under a CAN protocol. Main result: the reply shows exactly the frames and the outcome
        of the course that the request took on record. */
    method RequestOn(p: Protocol, req: Input.HexRequest) returns (ghost d: Deed)
      requires Ready()
      modifies hal.Repr(), guard.Repr(), link, log, log.frames
      ensures Ready() && AskedOn(old(Now()), Now(), p, req, d) && last == old(last) && stored == old(stored)
      ensures |hal.script| <= |old(hal.script)|
    {
      hide Hal.Valid, Guard.Valid, World, ReplyTo, RxLog.Contents, RequestFrame, Went, LogOf, OutcomeOf, ContextOf;
      var o;
      ghost var course;
      o, course := Converse(hal, guard, link, settings, p, req, log);
      d := Asked(hal.trace, course);
      Report(o);
    }

    /** A request before any protocol is known. Main result: a request that no searched protocol lets
        through is refused without touching the bus; else the reply and the protocol adopted are those
        of the attempt that ended the search. */
    method RequestSearch(req: Input.HexRequest) returns (ghost d: Deed)
      requires Ready()
      modifies hal.Repr(), guard.Repr(), link, log, log.frames, this`settings
      ensures Ready() && SearchedFor(old(Now()), Now(), req, d) && last == old(last) && stored == old(stored)
      ensures SameButOutput(old(hal.sum.session), hal.sum.session) && |hal.script| <= |old(hal.script)|
    {
      hide Hal.Valid, Guard.Valid, ReplyTo, RxLog.Contents, CanBeSearched, TriedInOrder, SearchGives;
      d := Plain;
      var able := Searchable(guard, settings, req);
      if !able {
        Answer("BLOCKED");
        return;
      }
      Answer("SEARCHING...");
      ghost var begun := hal.trace;
      d := SearchAndReport(req);
      ghost var head := "SEARCHING..." + LineEnd(old(settings));
      assert old(hal.sum.session.output) + head + ReplyTo(settings, log.Contents(), d.outcome)
        == old(hal.sum.session.output) + (head + ReplyTo(settings, log.Contents(), d.outcome));
    }

    method SearchAndReport(req: Input.HexRequest) returns (ghost d: Deed)
      requires Ready()
      modifies hal.Repr(), guard.Repr(), link, log, log.frames, this`settings
      ensures Ready() && last == old(last) && stored == old(stored) && |hal.script| <= |old(hal.script)|
      ensures d.Searched? && d.begun == old(hal.trace) && d.tries != []
      ensures TriedInOrder(old(settings), req, d.begun, d.tries)
      ensures SearchGives(old(settings), req, d.tries, d.outcome, settings, log.Contents())
      ensures WroteOn(d.tries[|d.tries| - 1].after, hal.trace)
      ensures hal.sum.session == old(hal.sum.session).(output := old(hal.sum.session.output)
                                                         + ReplyTo(settings, log.Contents(), d.outcome))
    {
      hide Hal.Valid, Guard.Valid, ReplyTo, RxLog.Contents, CanBeSearched, TriedInOrder, World, Untouched, ResultOf,
           LogOf, ContextOf;
      ghost var begun, tries := hal.trace, [];
      var o, adopted;
      o, adopted, tries := Search(hal, guard, link, settings, req, log);
      SearchKeepsFlow(settings, req, tries, o, adopted, log.Contents());
      settings := adopted;
      d := Searched(begun, tries, o);
      Report(o);
    }

    /** Anything that is no AT command. */
    method RunRequest(text: string) returns (ghost d: Deed)
      requires Ready() && text in hal.sum.session.lines && !IsAt(text)
      modifies hal.Repr(), guard.Repr(), link, log, log.frames, this`settings, this`last
      ensures Ready() && RequestDid(old(Now()), Now(), text, d)
      ensures SameUser(old(hal.sum.session), hal.sum.session) && |hal.script| <= |old(hal.script)|
    {
      hide Hal.Valid, Guard.Valid, World, ReplyTo, RxLog.Contents, AskedOn, SearchedFor, Input.ParseRequest, RequestFrame;
      d := Plain;
      var parsed := Input.ParseRequest(text, settings.caf);
      if parsed.None? {
        Answer("?");
        return;
      }
      last := text;
      var p := settings.protocol.current;
      if p == Unset {
        d := RequestSearch(parsed.value);
      } else if !IsCan(p) {
        log.Clear();
        Report(UnableToConnect);
      } else {
        ghost var a := Now();
        d := RequestOn(p, parsed.value);
        AskedSame(a, Now(), p, parsed.value, d);
      }
    }

    // ---------- AT commands ----------

    /** AT#GUARD READ, CLEAR or WRITE. */
    method SetGuard(x: Args) returns (reply: AtReply)
      requires Ready() && Ends(hal.trace, Executed("AT#GUARD" + TierText(x.tier)))
      modifies hal`trace, hal`sum, hal`vouched, hal`safe, guard
      ensures Ready() && ActiveDid(old(Now()), Now(), GuardSet, x, reply, Unremarkable)
      ensures SameUser(old(hal.sum.session), hal.sum.session)
    {
      hide Hal.Valid, Guard.Valid, RxLog.Contents, Promised, ActiveDid, Summary;
      ghost var a := Now();
      TcpIsKnown(hal);
      if x.tier == Write && hal.mux.onTcp {
        GuardSetDid(a, a, x, Bad);
        return Bad;
      }
      SumIsSummary(hal);
      TierMayChange(hal.trace, x.tier);
      guard.SetTier(x.tier);
      hal.Mark(TierChanged(x.tier));
      GuardSetDid(a, Now(), x, Ok);
      return Ok;
    }

    /** ATZ, ATWS, ATD: the guard is not reset. */
    method ResetRow(r: Row, x: Args) returns (reply: AtReply)
      requires Ready() && (r.Z? || r.Ws? || r.Defaults?)
      modifies hal.Repr(), link, this`settings
      ensures Ready() && ActiveDid(old(Now()), Now(), r, x, reply, Unremarkable)
      ensures SameUser(old(hal.sum.session), hal.sum.session) && |hal.script| <= |old(hal.script)|
    {
      hide Hal.Valid, Guard.Valid, World, RxLog.Contents, MonitorDid, SurveyDid, SelfTestDid, WifiLines, CountersLine, Rendered;
      settings := DEFAULTS.(protocol := stored);
      CloseLink(hal, guard, link);
      if r.Defaults? { return Ok; }
      ghost var reset := Now();
      Answer("");
      Answer(BANNER);
      assert "" + EndOf(reset) == EndOf(reset);
      OutputJoins(reset.sum, EndOf(reset), BANNER + EndOf(reset));
      return Printed;
    }

    /** ATMA, AT#SURVEY, AT#SELFTEST and ATPC. */
    method RunBusRow(r: Row, x: Args) returns (reply: AtReply, ghost d: RowDeed)
      requires Ready() && (r.Ma? || r.Survey? || r.SelfTest? || r.Pc?)
      modifies hal.Repr(), guard.Repr(), link
      ensures Ready() && ActiveDid(old(Now()), Now(), r, x, reply, d)
      ensures SameUser(old(hal.sum.session), hal.sum.session) && |hal.script| <= |old(hal.script)|
    {
      hide Hal.Valid, Guard.Valid, World, RxLog.Contents, MonitorDid, SurveyDid, SelfTestDid, ActiveDid;
      ghost var a := Now();
      ghost var mine: set<object> := {log, log.frames};
      assert mine !! hal.Repr() + guard.Repr() + {link};
      reply, d := Printed, Unremarkable;
      if r.Ma? {
        ghost var ran, es := Monitor(hal, guard, link, settings);
        MonitorRowDid(a, Now(), x, ran, es);
        d := Watched(ran, es);
      } else if r.Survey? {
        ghost var rs, finished, cut := SurveyBus(hal, guard, link, settings);
        SurveyRowDid(a, Now(), x, rs, finished, cut);
        d := SurveyMade(rs, finished, cut);
      } else if r.SelfTest? {
        ghost var present, detail, rs := SelfTestBus(hal, guard, link, settings);
        SelfTestRowDid(a, Now(), x, present, detail, rs);
        d := TestMade(present, detail, rs);
      } else {
        CloseLink(hal, guard, link);
        ClosedDid(a, Now(), x);
        reply := Ok;
      }
    }

    /** ATCS and AT#WIFI. */
    method RunStateRow(r: Row, x: Args) returns (reply: AtReply, ghost d: RowDeed)
      requires Ready() && (r.Cs? || r.Wifi?)
      modifies hal.Repr()
      ensures Ready() && ActiveDid(old(Now()), Now(), r, x, reply, d)
      ensures SameUser(old(hal.sum.session), hal.sum.session) && |hal.script| <= |old(hal.script)|
    {
      hide Hal.Valid, Guard.Valid, World, RxLog.Contents, CountersLine, Rendered, WifiLines, ActiveDid;
      ghost var a := Now();
      reply := Printed;
      if r.Cs? {
        var h := ReadHealth(hal, guard, link);
        Answer(CountersLine(h));
        CountersRowDid(a, Now(), x, h);
        d := Counters(h);
      } else {
        ghost var lines := TellWifi();
        WifiRowDid(a, Now(), x, lines);
        d := WifiTold(lines);
      }
    }

    /** Every line of the WiFi state, until there is none. */
    method TellWifi() returns (ghost lines: seq<string>)
      requires Ready()
      modifies hal.Repr()
      ensures Ready() && old(hal.trace) <= hal.trace && WifiLines(hal.trace[|old(hal.trace)|..]) == lines
      ensures Ends(hal.trace, WifiLine(None)) && |hal.script| <= |old(hal.script)|
      ensures Now() == old(Now()).(trace := hal.trace, sum := Outputting(old(hal.sum), Rendered(lines, LineEnd(settings))))
    {
      hide Hal.Valid, Guard.Valid, World, RxLog.Contents, Rendered, WifiLines, Outputting;
      lines := [];
      ghost var before, tr := hal.sum, hal.trace;
      NothingRendered("", LineEnd(settings));
      NothingOutput(before);
      assert hal.trace[|tr|..] == [];
      NoWifi();
      var more := true;
      while more
        invariant Ready() && tr <= hal.trace && WifiLines(hal.trace[|tr|..]) == lines
        invariant Now() == old(Now()).(trace := hal.trace, sum := Outputting(before, Rendered(lines, LineEnd(settings))))
        invariant |hal.script| <= |old(hal.script)| && (!more ==> Ends(hal.trace, WifiLine(None)))
        decreases |hal.script|, more
      {
        ghost var t0 := hal.trace;
        var status := ReadWifi(hal, guard, link);
        if status.Some? {
          Answer(status.value);
          OutputJoins(before, Rendered(lines, LineEnd(settings)), status.value + LineEnd(settings));
          RenderedNext(lines, status.value, LineEnd(settings));
          assert Rendered(lines, LineEnd(settings)) + (status.value + LineEnd(settings))
            == Rendered(lines + [status.value], LineEnd(settings));
          lines := lines + [status.value];
        }
        OneMoreWifi(tr, t0, hal.trace, status);
        more := status.Some?;
      }
    }

    /** The rows that only set something, or print a line about it. */
    method RunPassiveRow(r: Row, x: Args) returns (reply: AtReply)
      requires Ready() && ArgsFit(ShapeOf(r), x) && !Active(r)
      modifies hal.Repr(), this`settings, this`stored
      ensures Ready() && PassiveDid(old(Now()), Now(), r, x, reply)
      ensures SameUser(old(hal.sum.session), hal.sum.session) && |hal.script| <= |old(hal.script)|
    {
      hide Hal.Valid, Guard.Valid, World, RxLog.Contents, Changed, ShapeOf, ArgsFit, FlowReady, InfoLine, PassiveDid, Active;
      ghost var a := Now();
      TierInWorld(hal, guard, link);
      var info := InfoLine(r, settings.protocol, guard.tier);
      if info.Some? {
        Answer(info.value);
        InfoDid(a, Now(), r, x, info.value);
        return Printed;
      }
      reply := RunSettingRow(r, x);
    }

    method RunSettingRow(r: Row, x: Args) returns (reply: AtReply)
      requires Ready() && ArgsFit(ShapeOf(r), x) && !Active(r)
      requires InfoLine(r, settings.protocol, hal.sum.session.tier).None?
      modifies this`settings, this`stored
      ensures Ready() && PassiveDid(old(Now()), Now(), r, x, reply)
    {
      hide Hal.Valid, Guard.Valid, World, RxLog.Contents, Changed, ShapeOf, ArgsFit, FlowReady, InfoLine, PassiveDid, Active;
      ghost var a := Now();
      if r.Sp? {
        SpKeepsFlow(settings, Selection(x));
        settings, stored := settings.(protocol := Selection(x)), Selection(x);
        reply := Ok;
      } else {
        FlowStaysReady(settings, r, x);
        var changed := Changed(settings, r, x);
        settings := changed.GetOr(settings);
        reply := if changed.Some? then Ok else Bad;
      }
      SettingDid(a, Now(), r, x);
    }

    /** Runs a row. */
    method RunRow(r: Row, x: Args) returns (reply: AtReply, ghost d: RowDeed)
      requires Ready() && ArgsFit(ShapeOf(r), x)
      requires r.GuardSet? ==> Ends(hal.trace, Executed("AT#GUARD" + TierText(x.tier)))
      modifies hal.Repr(), guard.Repr(), link, this`settings, this`stored
      ensures Ready() && RowDid(old(Now()), Now(), r, x, reply, d)
      ensures SameUser(old(hal.sum.session), hal.sum.session) && |hal.script| <= |old(hal.script)|
    {
      hide Hal.Valid, Guard.Valid, World, RxLog.Contents, ActiveDid, PassiveDid, ShapeOf, ArgsFit;
      d := Unremarkable;
      if r.Z? || r.Ws? || r.Defaults? {
        reply := ResetRow(r, x);
      } else if r.GuardSet? {
        reply := SetGuard(x);
      } else if r.Ma? || r.Survey? || r.SelfTest? || r.Pc? {
        reply, d := RunBusRow(r, x);
      } else if r.Cs? || r.Wifi? {
        reply, d := RunStateRow(r, x);
      } else {
        reply := RunPassiveRow(r, x);
      }
    }

    /** A line that starts with AT. */
    method RunAt(body: string) returns (ghost d: Deed)
      requires Ready() && Ends(hal.trace, Executed("AT" + body))
      modifies hal.Repr(), guard.Repr(), link, this`settings, this`stored
      ensures Ready() && AtDid(old(Now()), Now(), body, d)
      ensures SameUser(old(hal.sum.session), hal.sum.session) && |hal.script| <= |old(hal.script)|
    {
      hide Hal.Valid, Guard.Valid, World, RxLog.Contents, ShapeOf, ArgsFit, ParseShape, Name, IsBest, RowDid;
      ghost var a := Now();
      var f := FindAt(ROWS, body);
      var reply := Bad;
      ghost var row := Unremarkable;
      if f.Found? {
        ParsedArgsFit(ShapeOf(f.row), body[|Name(f.row)|..]);
        GuardIsSpelled(hal.trace, body, f.row, f.args);
        reply, row := RunRow(f.row, f.args);
      }
      d := Looked(f, Now(), reply, row);
      if reply != Printed { Answer(if reply == Ok then "OK" else "?"); }
    }

    // ---------- Lines ----------

    /** Puts the start of a line on record. */
    ghost method StartLine(text: string)
      requires Idle() && Due(hal.sum.session, text)
      modifies hal`trace, hal`sum, hal`vouched, hal`safe
      ensures Ready() && Now() == Starting(old(Now()), text) && Ends(hal.trace, Executed(text))
    {
      hide Hal.Valid, Guard.Valid, RxLog.Contents, Promised, Due;
      SumIsSummary(hal);
      LineMayRun(hal.trace, text);
      hal.Mark(Executed(text));
    }

    /** A line that is not empty. */
    method RunLine(text: string) returns (ghost d: Deed)
      requires Ready() && text != "" && Ends(hal.trace, Executed(text)) && text in hal.sum.session.lines
      modifies hal.Repr(), guard.Repr(), link, log, log.frames, this`settings, this`stored, this`last
      ensures Ready()
      ensures if IsAt(text) then AtDid(old(Now()), Now(), text[2..], d) else RequestDid(old(Now()), Now(), text, d)
      ensures SameUser(old(hal.sum.session), hal.sum.session) && |hal.script| <= |old(hal.script)|
    {
      hide Hal.Valid, Guard.Valid, World, RxLog.Contents, AtDid, RequestDid;
      if IsAt(text) {
        assert text == "AT" + text[2..];
        d := RunAt(text[2..]);
      } else {
        d := RunRequest(text);
      }
    }

    /** A CR has been typed, and its line is still to run. */
    ghost predicate Entering()
      reads hal`sum, line, line.buf
    {
      line.Valid() && var s := hal.sum.session;
        s.keys == Keys([], line.pushed) && s.crs == |s.executed| + 1 && !s.running
    }

    /** Runs what was entered: the line, or the last request again, or nothing (a question mark). */
    method RunEntered() returns (ghost d: Deed)
      requires Idle() && Entering()
      modifies hal.Repr(), guard.Repr(), link, log, log.frames, this`settings, this`stored, this`last
      ensures Ready() && |hal.script| <= |old(hal.script)|
      ensures var text := Entered(Input.LineOf(line.pushed), old(last));
        LineDid(old(Now()), Now(), text, d) && Ran(old(hal.sum.session), hal.sum.session, text)
    {
      hide Hal.Valid, Guard.Valid, World, AtRest, RxLog.Contents, AtDid, RequestDid, Input.LineOf, LineDid, Ran, Due;
      var text := line.Text();
      LineIsKnown(line);
      LineIsDue(hal.sum.session, line.pushed, last);
      if line.invalid || (text == "" && last == "") {
        RunNothing();
        return Plain;
      }
      if text == "" { text := last; }
      d := RunText(text);
    }

    method RunNothing()
      requires Idle() && Due(hal.sum.session, "")
      modifies hal.Repr()
      ensures Ready() && |hal.script| <= |old(hal.script)|
      ensures LineDid(old(Now()), Now(), "", Plain) && Ran(old(hal.sum.session), hal.sum.session, "")
    {
      hide Hal.Valid, Guard.Valid, World, AtRest, RxLog.Contents, LineDid, Ran, Due;
      ghost var a := Now();
      StartLine("");
      Answer("?");
      NoLineDid(a, Now(), Plain);
    }

    method RunText(text: string) returns (ghost d: Deed)
      requires Idle() && text != "" && Due(hal.sum.session, text)
      modifies hal.Repr(), guard.Repr(), link, log, log.frames, this`settings, this`stored, this`last
      ensures Ready() && |hal.script| <= |old(hal.script)|
      ensures LineDid(old(Now()), Now(), text, d) && Ran(old(hal.sum.session), hal.sum.session, text)
    {
      hide Hal.Valid, Guard.Valid, World, AtRest, RxLog.Contents, AtDid, RequestDid, LineDid, Ran, Due;
      ghost var a := Now();
      StartLine(text);
      d := RunLine(text);
      SomeLineDid(a, Now(), text, d);
    }

    /** A CR: runs what was entered, and prompts. */
    method Execute() returns (ghost d: Deed, ghost done: Moment)
      requires Idle() && Entering()
      modifies hal.Repr(), guard.Repr(), link, log, log.frames, this`settings, this`stored, this`last
      ensures Idle() && AllRun(hal.sum.session) && hal.sum.session.keys == old(hal.sum.session.keys)
      ensures |hal.script| <= |old(hal.script)| && hal.sum.session.moves == old(hal.sum.session.moves)
      ensures LineDid(old(Now()), done, Entered(Input.LineOf(line.pushed), old(last)), d)
      ensures ToldAndPrompted(done, Now(), EndOf(done))
    {
      hide Hal.Valid, Guard.Valid, World, AtRest, RxLog.Contents, LineDid, Input.LineOf, LineEnd;
      d := RunEntered();
      done := Now();
      Say(LineEnd(settings));
      EndLine(done);
    }

    /** The prompt. */
    method EndLine(ghost done: Moment)
      requires Ready() && Told(done, Now(), EndOf(done))
      modifies hal.Repr()
      ensures Idle() && ToldAndPrompted(done, Now(), EndOf(done)) && |hal.script| <= |old(hal.script)|
      ensures hal.sum.session == old(hal.sum.session).(running := false, output := hal.sum.session.output)
    {
      hide Hal.Valid, Guard.Valid, RxLog.Contents, LineEnd, Told;
      ghost var told := Now();
      hal.Prompt();
      Prompting(done, told, Now(), EndOf(done));
    }

    // ---------- Bytes ----------

    /** A byte has been read and not yet dealt with. */
    ghost predicate Took(c: byte)
      reads this, objects, hal, hal.mux, hal.mux.outBuf, hal.mux.tcp, guard, guard.heard, guard.heard.ids, link
      reads line, line.buf, log
    {
      Idle() && line.Valid() && linkSwitches == hal.sum.session.moves % 0x100
      && TypedOn(line.pushed, c, hal.sum.session)
    }

    method Echo(c: byte)
      requires Idle()
      modifies hal.Repr()
      ensures Idle() && Told(old(Now()), Now(), EchoOf(settings, c)) && |hal.script| <= |old(hal.script)|
      ensures hal.sum.session == old(hal.sum.session).(output := hal.sum.session.output)
    {
      hide Hal.Valid, Guard.Valid, AtRest, RxLog.Contents, LineEnd;
      ToldNothing(Now());
      if settings.echo { Put(if c == CR then LineEnd(settings) else [c as char]); }
    }

    /** One byte of the session, just read at `a`. Main result: a CR runs the line that is due to its
        end, and what it did is what that line does; the prompt follows; the line is cleared. */
    method OnByte(c: byte, ghost a: Moment, ghost from: nat) returns (ghost t: Turn)
      requires Took(c) && Now() == Reading(a, c, from)
      modifies hal.Repr(), guard.Repr(), link, log, log.frames, line, line.buf, this`settings, this`stored, this`last
      ensures Valid() && |hal.script| <= |old(hal.script)|
      ensures hal.sum.session.moves == old(hal.sum.session.moves)
      ensures TurnWent(a, t) && t.c == c && t.from == from && t.left == Now()
    {
      hide Hal.Valid, Guard.Valid, World, RxLog.Contents, LineDid, Input.LineOf, LineEnd, EchoOf, Input.LineBuffer.Valid,
           Next, Told;
      t := Turn(c, from, Now(), Now(), Plain, Now());
      if c == LF { return; }
      Echo(c);
      t := t.(begun := Now(), left := Now());
      if c == CR {
        ghost var d, done := Execute();
        line.Clear();
        t := t.(done := done, deed := d, left := Now());
      } else {
        line.Push(c);
      }
    }

    method NextByte() returns (c: int, ghost from: nat)
      requires Valid()
      modifies hal.Repr()
      ensures c == NOTHING || c == LINK_CLOSED || 0 <= c < 0x100
      ensures log.Valid()
      ensures if c >= 0 then Took(c) && |hal.script| < |old(hal.script)| else Valid() && |hal.script| <= |old(hal.script)|
      ensures hal.sum.session.moves == old(hal.sum.session.moves)
      ensures Now() == Reading(old(Now()), c, from)
    {
      hide Hal.Valid, Guard.Valid, RxLog.Contents, Input.LineBuffer.Valid;
      c, from := hal.ReadByte();
    }

    /** A move of the session: what the old link sent is dropped, and a WRITE tier does not come along
        to TCP. The counter wraps, but it moved by at most one since it was last looked at. */
    method NoticeSwitch(ghost a: Moment, ghost moved: Option<bool>)
      requires Polled() && PolledFrom(a, Now(), moved) && (moved.Some? <==> linkSwitches != hal.sum.session.moves % 0x100)
      modifies this`linkSwitches, this`last, line, guard, hal`trace, hal`sum, hal`vouched, hal`safe
      ensures Valid() && hal.sum.session.moves == old(hal.sum.session.moves) && Now() == Moving(a, moved)
    {
      hide Hal.Valid, Guard.Valid, RxLog.Contents, Input.LineBuffer.Valid, PolledFrom, Moving, Next, MovedTo, LinkState.Agrees;
      CountIsMoves(hal);
      ghost var polled := Now();
      var switches := hal.mux.switches;
      if switches != linkSwitches {
        linkSwitches := switches;
        Forget();
      }
      NoticedMove(a, polled, Now(), moved);
    }

    /** What was typed on the link that had the session is forgotten. */
    method Forget()
      requires Apart() && AtPrompt(hal) && log.Valid() && FlowReady(settings) && line.Valid() && AllRun(hal.sum.session)
      requires hal.Valid() && guard.Valid() && hal.safe && guard.history == hal.sum.history && link.Agrees(hal)
      requires !hal.sum.session.running && linkSwitches == hal.sum.session.moves % 0x100
      requires Ends(hal.trace, Moved(hal.sum.session.onTcp)) && hal.sum.session.keys == Keys([], [])
      modifies this`last, line, guard, hal`trace, hal`sum, hal`vouched, hal`safe
      ensures Valid() && hal.sum.session.moves == old(hal.sum.session.moves) && last == ""
      ensures MovedTo(old(hal.trace), old(hal.sum), hal.trace, hal.sum)
    {
      hide Hal.Valid, Guard.Valid, RxLog.Contents, RxLog.Valid, Input.LineBuffer.Valid, Next, MovedTo, LinkState.OnAir,
           FlowReady;
      line.Clear();
      last := "";
      LowerOnTcp();
    }

    /** A WRITE tier is lowered to READ on TCP. */
    method LowerOnTcp()
      requires hal.Valid() && guard.Valid() && hal.safe && guard.history == hal.sum.history
      requires Ends(hal.trace, Moved(hal.sum.session.onTcp))
      modifies guard, hal`trace, hal`sum, hal`vouched, hal`safe
      ensures Steady(hal, guard) && hal.vouched == old(hal.vouched)
      ensures hal.sum.session == old(hal.sum.session).(tier := hal.sum.session.tier)
      ensures MovedTo(old(hal.trace), old(hal.sum), hal.trace, hal.sum)
    {
      hide Hal.Valid, Guard.Valid, Promised, TierNow;
      TierOnRecord(hal, guard);
      TcpIsKnown(hal);
      if hal.mux.onTcp && guard.tier == Write {
        MayDrop(hal.trace);
        guard.SetTier(Read);
        hal.Mark(TierChanged(Read));
      }
    }

    /** Deals with a move, if there was one, and then with every byte that is waiting. Main result:
        the record goes on with one turn for each byte read, in order, each dealt with as its byte
        says, until there is none. */
    method Service(ghost a: Moment, ghost moved: Option<bool>) returns (ghost r: Round)
      requires Polled() && PolledFrom(a, Now(), moved) && (moved.Some? <==> linkSwitches != hal.sum.session.moves % 0x100)
      modifies this, objects
      ensures Valid() && hal.sum.session.moves == old(hal.sum.session.moves) && |hal.script| <= |old(hal.script)|
      ensures RoundWent(a, r) && r.moved == moved && r.left == Now()
    {
      hide Hal.Valid, Guard.Valid, World, RxLog.Contents, Input.LineBuffer.Valid, Valid, Took, TurnWent, AllWent, Reading,
           Moving, PolledFrom;
      NoticeSwitch(a, moved);
      ghost var b, turns := Now(), [];
      NoTurns(b);
      var c;
      ghost var from;
      c, from := NextByte();
      while c >= 0
        invariant if c >= 0 then c < 0x100 && Took(c) else Valid()
        invariant Apart() && hal.sum.session.moves == old(hal.sum.session.moves) && |hal.script| <= |old(hal.script)|
        invariant AllWent(b, turns) && log.Valid() && Now() == Reading(LeftBy(b, turns, |turns|), c, from)
        decreases |hal.script|, c >= 0
      {
        ghost var t := OnByte(c, LeftBy(b, turns, |turns|), from);
        TurnsNext(b, turns, t);
        turns := turns + [t];
        c, from := NextByte();
      }
      r := Round(moved, turns, c, from, Now());
    }

    /** The main loop, for any number of rounds. Main result: its record is that of its rounds. */
    method Loop(rounds: nat) returns (ghost rs: seq<Round>)
      requires Valid()
      modifies this, objects
      ensures Valid() && |rs| == rounds && RoundsWent(old(Now()), rs) && Now() == LeftAfter(old(Now()), rs, rounds)
    {
      hide Hal.Valid, Guard.Valid, World, RxLog.Contents, RxLog.Valid, Input.LineBuffer.Valid, Polled, Typing, Ready, AtRest,
           RoundWent, PolledFrom;
      ghost var a := Now();
      rs := [];
      for i := 0 to rounds
        invariant Valid() && |rs| == i && RoundsWent(a, rs) && Now() == LeftAfter(a, rs, i)
      {
        ghost var moved := Poll();
        ghost var r := Service(LeftAfter(a, rs, i), moved);
        RoundsNext(a, rs, r);
        rs := rs + [r];
      }
    }

    method Poll() returns (ghost moved: Option<bool>)
      requires Valid()
      modifies hal.Repr()
      ensures Polled() && PolledFrom(old(Now()), Now(), moved)
      ensures moved.Some? <==> linkSwitches != hal.sum.session.moves % 0x100
      ensures moved == if old(hal.mux.MustMove()) then Some(old(hal.mux.tcp.Calling())) else None
    {
      hide Hal.Valid, Guard.Valid, RxLog.Contents, Input.LineBuffer.Valid;
      moved := hal.PollLinks();
    }
  }

  predicate PolledFrom(a: Moment, b: Moment, moved: Option<bool>) {
    match moved
    case None => b == a
    case Some(toTcp) => b == a.(trace := a.trace + [Moved(toTcp)], sum := Next(a.sum, Moved(toTcp)))
  }

  /** A WRITE tier is lowered on TCP, and nothing else happens. */
  predicate MovedTo(tr: seq<Event>, d: Digest, tr': seq<Event>, d': Digest) {
    if d.session.onTcp && d.session.tier == Write then
      tr' == tr + [TierChanged(Read)] && d' == Next(d, TierChanged(Read))
    else tr' == tr && d' == d
  }

  lemma NoticedMove(a: Moment, polled: Moment, b: Moment, moved: Option<bool>)
    requires PolledFrom(a, polled, moved)
    requires if moved.Some? then
               MovedTo(polled.trace, polled.sum, b.trace, b.sum) && b == polled.(trace := b.trace, sum := b.sum, last := "")
             else b == polled
    ensures b == Moving(a, moved)
  {
  }

  lemma NoTurns(a: Moment)
    ensures AllWent(a, [])
  {
  }

  lemma Prompting(a: Moment, told: Moment, b: Moment, text: string)
    requires Told(a, told, text) && b.trace != [] && b.trace[|b.trace| - 1].Prompted?
    requires var e := b.trace[|b.trace| - 1];
      b == told.(trace := told.trace + [e], sum := Next(told.sum, e))
    ensures ToldAndPrompted(a, b, text)
  {
    hide Next;
    assert b.trace[..|b.trace| - 1] == told.trace;
  }

  predicate Repeatable(last: string, s: Session) { last == "" || (last in s.lines && !IsAt(last)) }

  lemma StartsValid(e: Elm)
    requires e.hal.Valid() && e.hal.safe && e.hal.sum == FRESH && e.hal.mode == None && e.guard.Valid() && e.guard.history == []
    requires !e.link.open && e.link.talk == Unchecked && e.line.Valid() && e.line.pushed == [] && e.log.Valid()
    requires e.settings == DEFAULTS && e.last == "" && e.linkSwitches == 0 && e.Apart()
    ensures e.Valid()
  {
    hide Hal.Valid, Guard.Valid, Input.LineBuffer.Valid, Elm.Apart;
  }

  lemma SearchKeepsFlow(s: Settings, req: Input.HexRequest, tries: seq<Attempt>, o: Outcome, s': Settings, log: seq<CanFrame>)
    requires SearchGives(s, req, tries, o, s', log) && FlowReady(s)
    ensures FlowReady(s')
  {
    hide ResultOf, LogOf, ContextOf;
  }

  lemma AskedSame(a: Moment, b: Moment, p: Protocol, req: Input.HexRequest, d: Deed)
    requires AskedOn(a, b, p, req, d)
    ensures SameUser(a.sum.session, b.sum.session)
  {
    hide Went, ReplyTo, LogOf, OutcomeOf, RequestFrame;
  }

  lemma TcpIsKnown(hal: Hal)
    requires hal.Valid()
    ensures hal.mux.onTcp == hal.sum.session.onTcp
  {
  }

  lemma TierMayChange(tr: seq<Event>, t: Tier)
    requires Ends(tr, Executed("AT#GUARD" + TierText(t))) && (t == Write ==> !Summary(tr).session.onTcp)
    ensures Promised(tr, TierChanged(t))
  {
    hide Summary;
  }

  lemma NoWifi()
    ensures WifiLines([]) == []
  {
  }

  /** One more line asked for, and perhaps printed. */
  lemma OneMoreWifi(start: seq<Event>, before: seq<Event>, after: seq<Event>, status: Option<string>)
    requires start <= before && WroteOn(before + [WifiLine(status)], after)
    ensures WifiLines(after[|start|..])
      == WifiLines(before[|start|..]) + (if status.Some? then [status.value] else [])
  {
    hide WifiLines;
    assert (before + [WifiLine(status)])[|start|..] == before[|start|..] + [WifiLine(status)];
    WifiNext(before[|start|..], WifiLine(status));
    WritesAreNoWifi(start, before + [WifiLine(status)], after);
  }

  lemma WifiNext(es: seq<Event>, e: Event)
    ensures WifiLines(es + [e]) == WifiLines(es) + (if e.WifiLine? && e.status.Some? then [e.status.value] else [])
  {
    assert (es + [e])[..|es|] == es;
  }

  lemma {:induction false} WritesAreNoWifi(start: seq<Event>, before: seq<Event>, after: seq<Event>)
    requires start <= before && WroteOn(before, after)
    ensures WifiLines(after[|start|..]) == WifiLines(before[|start|..])
    decreases |after|
  {
    hide WifiLines;
    if |after| == |before| {
      assert after == before;
    } else {
      var front := after[..|after| - 1];
      WritesAreNoWifi(start, before, front);
      assert after[|start|..] == front[|start|..] + [after[|after| - 1]];
      WifiNext(front[|start|..], after[|after| - 1]);
    }
  }

  method ReadWifi(hal: Hal, guard: Guard, link: LinkState) returns (status: Option<string>)
    requires World(hal, guard, link)
    modifies hal
    ensures World(hal, guard, link) && hal.mode == old(hal.mode) && hal.trace == old(hal.trace) + [WifiLine(status)]
    ensures hal.sum == old(hal.sum) && |hal.script| <= |old(hal.script)|
    ensures status.Some? ==> |hal.script| < |old(hal.script)|
  {
    hide Hal.Valid, Guard.Valid, Next;
    status := hal.WifiStatus();
  }

  lemma TierInWorld(hal: Hal, guard: Guard, link: LinkState)
    requires World(hal, guard, link)
    ensures guard.tier == hal.sum.session.tier
  {
    hide Hal.Valid, Guard.Valid;
    TierOnRecord(hal, guard);
  }

  lemma SpKeepsFlow(s: Settings, sel: ProtocolSel)
    requires FlowReady(s)
    ensures FlowReady(s.(protocol := sel))
  {
  }

  lemma GuardIsSpelled(tr: seq<Event>, body: string, r: Row, x: Args)
    requires Ends(tr, Executed("AT" + body)) && Matches(r, body) == Some(x)
    ensures r.GuardSet? ==> Ends(tr, Executed("AT#GUARD" + TierText(x.tier)))
  {
    hide Matches;
    if r.GuardSet? {
      GuardRowSpells(body, x);
      assert "AT" + body == "AT#GUARD" + TierText(x.tier);
    }
  }

  lemma LineMayRun(tr: seq<Event>, text: string)
    requires Due(Summary(tr).session, text)
    ensures Promised(tr, Executed(text))
  {
    hide Summary, Due;
  }

  lemma LineIsDue(s: Session, pushed: seq<byte>, last: string)
    requires s.keys == Keys([], pushed) && s.crs == |s.executed| + 1 && !s.running && Repeatable(last, s)
    ensures Due(s, Entered(Input.LineOf(pushed), last))
  {
    hide Input.LineOf;
  }

  lemma LineIsKnown(line: Input.LineBuffer)
    requires line.Valid()
    ensures line.invalid == Input.LineOf(line.pushed).invalid
  {
  }

  /** The byte came after `line`; after a CR, that line is what was entered, and one more line is to run. */
  predicate TypedOn(line: seq<byte>, c: byte, s: Session) {
    if c == CR then s.keys == Keys([], line) && |s.executed| + 1 == s.crs
    else s.keys.line == (if c == LF then line else line + [c]) && AllRun(s)
  }

  lemma CountIsMoves(hal: Hal)
    requires hal.Valid()
    ensures hal.mux.switches == hal.sum.session.moves % 0x100
  {
  }

  lemma TierOnRecord(hal: Hal, guard: Guard)
    requires hal.Valid() && guard.Valid() && guard.history == hal.sum.history
    ensures guard.tier == hal.sum.session.tier
  {
    hide TierNow, Guard.Repr, LinkMux.Valid, Safe, Vouched;
    TierReplayed(guard.history);
    HistoryIsRecord(hal.trace);
    SumIsSummary(hal);
  }

  lemma MayDrop(tr: seq<Event>)
    requires Ends(tr, Moved(true))
    ensures Promised(tr, TierChanged(Read))
  {
    hide Summary;
  }

  // ---------- Whole runs ----------

  /** Power-up, then any number of rounds of the main loop, against any two links and any bus.
      Main result: the record of the whole run is safe; it is the banner, then round by round what
      every byte read had to do, and nothing else; the controller ends silent; and the ids the guard
      has recorded are exactly the first 128 distinct diagnostic ids that listening received. */
  method Run(usb: ByteLink, tcp: ByteLink, script: seq<Obs>, rounds: nat)
    returns (e: Elm, ghost start: Moment, ghost rs: seq<Round>)
    requires usb != tcp
    modifies usb, tcp
    ensures e.Valid() && fresh(e) && Safe(e.hal.trace) && AtPrompt(e.hal)
    ensures ToldAndPrompted(SWITCHED_ON, start, BANNER + EndOf(start))
    ensures |rs| == rounds && RoundsWent(start, rs) && e.Now() == LeftAfter(start, rs, rounds)
    ensures AllRun(Summary(e.hal.trace).session)
    ensures forall id :: id in e.guard.heard.Contents() <==> AmongFirst128(IdsOf(Summary(e.hal.trace).listened), id)
  {
    hide Hal.Valid, Guard.Valid, World, RxLog.Valid, RxLog.Contents, Input.LineBuffer.Valid, Safe, Elm.Typing, AtRest,
         AmongFirst128, Summary, Told, ToldAndPrompted, AllRun, RoundsWent;
    var hal := new Hal(usb, tcp, script);
    e := new Elm(hal);
    e.Begin();
    start := e.Now();
    rs := e.Loop(rounds);
    RunIsSafe(e);
  }

  lemma RunIsSafe(e: Elm)
    requires e.Valid()
    ensures Safe(e.hal.trace) && e.guard.heard.Valid() && AllRun(Summary(e.hal.trace).session)
    ensures forall id :: id in e.guard.heard.Contents() <==> AmongFirst128(IdsOf(Summary(e.hal.trace).listened), id)
  {
    hide Safe, AmongFirst128, TierNow, LinkMux.Valid, Vouched, Summary;
    SumIsSummary(e.hal);
    HistoryIsRecord(e.hal.trace);
    assert e.hal.Recorded();
    forall id ensures id in e.guard.heard.Contents() <==> AmongFirst128(IdsOf(Summary(e.hal.trace).listened), id) {
      HeardAreFirst128(e.guard.history, id);
      RecordedFollowsLog(e.guard.history, id);
    }
  }
}
