/** What each line a user enters does (lib/elm/src/elm.cpp, lib/elm/src/at_table.cpp), from one moment
    of the session to another. */
module Commands {
  import opened CanTypes
  import opened Config
  import opened WriteGuard
  import opened Exchange
  import opened Record
  import opened Procedures
  import opened AtTable
  import opened Replies
  import opened Handlers
  import Input
  import Text

  /** A session at one moment: the record and what it adds up to, the settings, the stored protocol,
      the request that a bare CR repeats, the log, and whether the link is open. */
  datatype Moment = Moment(trace: seq<Event>, sum: Digest, settings: Settings, stored: ProtocolSel, last: string,
                           log: seq<CanFrame>, open: bool)

  function EndOf(m: Moment): string { LineEnd(m.settings) }

  /** `text` was written, and nothing else happened. */
  predicate Told(a: Moment, b: Moment, text: string) {
    b == a.(sum := Outputting(a.sum, text), trace := b.trace) && WroteOn(a.trace, b.trace)
  }

  lemma ToldTwice(a: Moment, b: Moment, c: Moment, x: string, y: string)
    requires Told(a, b, x) && Told(b, c, y)
    ensures Told(a, c, x + y)
  {
    OutputJoins(a.sum, x, y);
  }

  lemma ToldNothing(a: Moment)
    ensures Told(a, a, "")
  {
    NothingOutput(a.sum);
  }

  /** What no command changes: the session, and what was typed and run in it. */
  predicate SameUser(s: Session, s': Session) { s' == s.(tier := s'.tier, output := s'.output) }

  // ---------- Requests ----------

  /** How a line was dealt with. */
  datatype Deed =
    | Plain
    | Asked(asked: seq<Event>, course: Course)
    | Searched(begun: seq<Event>, tries: seq<Attempt>, outcome: Outcome)
    | Looked(found: Found, mid: Moment, reply: AtReply, row: RowDeed)

  datatype RowDeed =
    | Unremarkable
    | Watched(ran: bool, view: seq<Event>)
    | SurveyMade(rates: seq<Rated>, finished: bool, cut: Rated)
    | TestMade(present: bool, detail: string, loops: seq<Looped>)
    | Counters(health: CanHealth)
    | WifiTold(lines: seq<string>)

  /** A request under a CAN protocol: a course of the request, and a reply that shows its log and its
      outcome. */
  ghost predicate AskedOn(a: Moment, b: Moment, p: Protocol, req: Input.HexRequest, d: Deed) {
    d.Asked?
    && var ctx := ContextOf(a.settings, p, req);
       Went(ctx, RequestFrame(a.settings, p, req.bytes), a.trace, d.asked, d.course) && WroteOn(d.asked, b.trace)
       && b.log == LogOf(ctx, d.course) && b.settings == a.settings
       && b.sum.session == a.sum.session.(output := a.sum.session.output + ReplyTo(a.settings, b.log, OutcomeOf(ctx, d.course)))
  }

  /** A request before any protocol is known: BLOCKED, with nothing done, if no searched protocol
      lets it through; else the attempts of a search, and the reply of the one that brought it. */
  ghost predicate SearchedFor(a: Moment, b: Moment, req: Input.HexRequest, d: Deed) {
    if !CanBeSearched(a.sum.history, a.settings, req) then Told(a, b, "BLOCKED" + EndOf(a))
    else
      d.Searched? && d.tries != [] && WroteOn(a.trace, d.begun) && TriedInOrder(a.settings, req, d.begun, d.tries)
      && SearchGives(a.settings, req, d.tries, d.outcome, b.settings, b.log)
      && WroteOn(d.tries[|d.tries| - 1].after, b.trace)
      && b.sum.session == a.sum.session.(output := a.sum.session.output
            + ("SEARCHING..." + EndOf(a) + ReplyTo(b.settings, b.log, d.outcome)))
  }

  /** Anything that is no AT command. */
  ghost predicate RequestDid(a: Moment, b: Moment, text: string, d: Deed) {
    var parsed, p := Input.ParseRequest(text, a.settings.caf), a.settings.protocol.current;
    b.stored == a.stored
    && if parsed.None? then Told(a, b, "?" + EndOf(a))
       else
         b.last == text
         && var a' := a.(last := text);
            if p == Unset then SearchedFor(a', b, parsed.value, d)
            else if IsCan(p) then AskedOn(a', b, p, parsed.value, d)
            else Told(a'.(log := []), b, ReplyTo(a.settings, [], UnableToConnect))
  }

  // ---------- AT commands ----------

  function CountersLine(h: CanHealth): string { "T:" + Text.ByteText(h.tec) + " R:" + Text.ByteText(h.rec) }

  /** The lines of the WiFi state that were read. */
  function WifiLines(es: seq<Event>): seq<string> {
    if es == [] then []
    else
      var e := es[|es| - 1];
      WifiLines(es[..|es| - 1]) + (if e.WifiLine? && e.status.Some? then [e.status.value] else [])
  }

  /** The rows that reset, listen, send a loopback frame, or ask the controller or the network. */
  predicate Active(r: Row) {
    r.Z? || r.Ws? || r.Defaults? || r.Pc? || r.GuardSet? || r.Ma? || r.Survey? || r.SelfTest? || r.Cs? || r.Wifi?
  }

  /** The rows that only set something, or print a line about it. */
  predicate PassiveDid(a: Moment, b: Moment, r: Row, x: Args, reply: AtReply) {
    var info := InfoLine(r, a.settings.protocol, a.sum.session.tier);
    if info.Some? then reply == Printed && Told(a, b, info.value + EndOf(a))
    else
      ArgsFit(ShapeOf(r), x)
      && reply == (if r.Sp? || Changed(a.settings, r, x).Some? then Ok else Bad)
      && b == a.(settings := SettingsAfter(a.settings, a.stored, r, x), stored := if r.Sp? then Selection(x) else a.stored)
  }

  lemma InfoDid(a: Moment, b: Moment, r: Row, x: Args, text: string)
    requires ArgsFit(ShapeOf(r), x) && InfoLine(r, a.settings.protocol, a.sum.session.tier) == Some(text)
    requires Told(a, b, text + EndOf(a))
    ensures PassiveDid(a, b, r, x, Printed)
  {
    hide InfoLine, ArgsFit, ShapeOf;
  }

  lemma SettingDid(a: Moment, b: Moment, r: Row, x: Args)
    requires ArgsFit(ShapeOf(r), x) && !Active(r) && InfoLine(r, a.settings.protocol, a.sum.session.tier).None?
    requires var changed := Changed(a.settings, r, x);
      b == if r.Sp? then a.(settings := a.settings.(protocol := Selection(x)), stored := Selection(x))
           else if changed.Some? then a.(settings := changed.value)
           else a
    ensures PassiveDid(a, b, r, x, if r.Sp? || Changed(a.settings, r, x).Some? then Ok else Bad)
  {
    hide InfoLine, ArgsFit, ShapeOf, Changed;
  }

  predicate ActiveDid(a: Moment, b: Moment, r: Row, x: Args, reply: AtReply, d: RowDeed) {
    b.stored == a.stored && b.last == a.last && b.log == a.log
    && match r
       case GuardSet =>
         var refused := x.tier == Write && a.sum.session.onTcp;
         reply == (if refused then Bad else Ok)
         && b == if refused then a
                 else a.(trace := a.trace + [TierChanged(x.tier)], sum := Next(a.sum, TierChanged(x.tier)))
       case Ma =>
         reply == Printed && b.settings == a.settings && d.Watched?
         && MonitorDid(a.settings, a.trace, b.trace, a.sum, b.sum, d.ran, d.view)
       case Survey =>
         reply == Printed && b.settings == a.settings && d.SurveyMade?
         && SurveyDid(a.settings, a.trace, b.trace, a.sum, b.sum, d.rates, d.finished, d.cut)
       case SelfTest =>
         reply == Printed && b.settings == a.settings && d.TestMade?
         && SelfTestDid(a.settings, a.trace, b.trace, a.sum, b.sum, d.present, d.detail, d.loops)
       case Cs =>
         reply == Printed && d.Counters?
         && Told(a.(trace := a.trace + [Health(d.health)]), b, CountersLine(d.health) + EndOf(a))
       case Wifi =>
         reply == Printed && d.WifiTold? && a.trace <= b.trace && WifiLines(b.trace[|a.trace|..]) == d.lines
         && Ends(b.trace, WifiLine(None))
         && b == a.(trace := b.trace, sum := Outputting(a.sum, Rendered(d.lines, EndOf(a))))
       case Pc => reply == Ok && b == a.(trace := a.trace + [Closed], open := false)
       case Defaults => reply == Ok && b == Reset(a)
       case _ => reply == Printed && Told(Reset(a), b, EndOf(Reset(a)) + (BANNER + EndOf(Reset(a))))
  }

  /** `b` differs from `a` in the record and in whether the link is open, at most. */
  predicate SameFace(a: Moment, b: Moment) { b == a.(trace := b.trace, sum := b.sum, open := b.open) }

  lemma GuardSetDid(a: Moment, b: Moment, x: Args, reply: AtReply)
    requires var refused := x.tier == Write && a.sum.session.onTcp;
      reply == (if refused then Bad else Ok)
      && b == if refused then a
              else a.(trace := a.trace + [TierChanged(x.tier)], sum := Next(a.sum, TierChanged(x.tier)))
    ensures ActiveDid(a, b, GuardSet, x, reply, Unremarkable)
  {
    hide Next;
  }

  lemma ClosedDid(a: Moment, b: Moment, x: Args)
    requires b == a.(trace := a.trace + [Closed], open := false)
    ensures ActiveDid(a, b, Pc, x, Ok, Unremarkable)
  {
  }

  lemma MonitorRowDid(a: Moment, b: Moment, x: Args, ran: bool, es: seq<Event>)
    requires SameFace(a, b) && MonitorDid(a.settings, a.trace, b.trace, a.sum, b.sum, ran, es)
    ensures ActiveDid(a, b, Ma, x, Printed, Watched(ran, es)) && SameUser(a.sum.session, b.sum.session)
  {
    hide MonitorText, MonitorFilter, MonitorProtocol, ViewRun;
  }

  lemma SurveyRowDid(a: Moment, b: Moment, x: Args, rs: seq<Rated>, finished: bool, cut: Rated)
    requires SameFace(a, b) && SurveyDid(a.settings, a.trace, b.trace, a.sum, b.sum, rs, finished, cut)
    ensures ActiveDid(a, b, Row.Survey, x, Printed, SurveyMade(rs, finished, cut)) && SameUser(a.sum.session, b.sum.session)
  {
    hide RatedOnRecord, CutOnRecord, SurveyLines, SurveyVerdict, Rendered;
  }

  lemma SelfTestRowDid(a: Moment, b: Moment, x: Args, present: bool, detail: string, rs: seq<Looped>)
    requires SameFace(a, b) && SelfTestDid(a.settings, a.trace, b.trace, a.sum, b.sum, present, detail, rs)
    ensures ActiveDid(a, b, Row.SelfTest, x, Printed, TestMade(present, detail, rs)) && SameUser(a.sum.session, b.sum.session)
  {
    hide LoopedOnRecord, SelfTestText, Rendered;
  }

  lemma CountersRowDid(a: Moment, b: Moment, x: Args, h: CanHealth)
    requires Told(a.(trace := a.trace + [Health(h)]), b, CountersLine(h) + EndOf(a))
    ensures ActiveDid(a, b, Cs, x, Printed, Counters(h)) && SameUser(a.sum.session, b.sum.session)
  {
    hide CountersLine;
  }

  lemma WifiRowDid(a: Moment, b: Moment, x: Args, lines: seq<string>)
    requires a.trace <= b.trace && WifiLines(b.trace[|a.trace|..]) == lines && Ends(b.trace, WifiLine(None))
    requires b == a.(trace := b.trace, sum := Outputting(a.sum, Rendered(lines, EndOf(a))))
    ensures ActiveDid(a, b, Row.Wifi, x, Printed, WifiTold(lines)) && SameUser(a.sum.session, b.sum.session)
  {
    hide Rendered, WifiLines, MonitorDid, SurveyDid, SelfTestDid, Told, CountersLine;
  }

  /** Defaults, with the stored protocol, off the bus. The guard is not reset. */
  function Reset(a: Moment): Moment {
    a.(settings := DEFAULTS.(protocol := a.stored), trace := a.trace + [Closed], open := false)
  }

  predicate RowDid(a: Moment, b: Moment, r: Row, x: Args, reply: AtReply, d: RowDeed) {
    if Active(r) then ActiveDid(a, b, r, x, reply, d) else PassiveDid(a, b, r, x, reply)
  }

  /** A line that starts with AT: the best row ran, or none matches; then OK or a question mark,
      unless the row printed. */
  predicate AtDid(a: Moment, b: Moment, body: string, d: Deed) {
    d.Looked?
    && Finds(ROWS, body, d.found)
    && (match d.found
        case NoRow => d.mid == a && d.reply == Bad
        case Found(r, x) => RowDid(a, d.mid, r, x, d.reply, d.row))
    && if d.reply == Printed then b == d.mid
       else Told(d.mid, b, (if d.reply == Ok then "OK" else "?") + EndOf(d.mid))
  }

  // ---------- Lines ----------

  /** The line is on record as started. */
  function Starting(a: Moment, text: string): Moment {
    a.(trace := a.trace + [Executed(text)], sum := Next(a.sum, Executed(text)))
  }

  /** A line ran: none (a question mark), an AT command, or a request. */
  ghost predicate LineDid(a: Moment, b: Moment, text: string, d: Deed) {
    var m := Starting(a, text);
    if text == "" then Told(m, b, "?" + EndOf(a))
    else if IsAt(text) then AtDid(m, b, text[2..], d)
    else RequestDid(m, b, text, d)
  }

  lemma NoLineDid(a: Moment, b: Moment, d: Deed)
    requires Told(Starting(a, ""), b, "?" + EndOf(a))
    ensures LineDid(a, b, "", d) && Ran(a.sum.session, b.sum.session, "")
  {
  }

  lemma SomeLineDid(a: Moment, b: Moment, text: string, d: Deed)
    requires text != "" && SameUser(Starting(a, text).sum.session, b.sum.session)
    requires if IsAt(text) then AtDid(Starting(a, text), b, text[2..], d) else RequestDid(Starting(a, text), b, text, d)
    ensures LineDid(a, b, text, d) && Ran(a.sum.session, b.sum.session, text)
  {
    hide AtDid, RequestDid;
  }

  /** One more line is running, and nothing else of the session is different but the tier and the
      output. */
  predicate Ran(s: Session, s': Session, text: string) {
    SameUser(s.(running := true, executed := s.executed + [text], lines := s.lines + {text}), s')
  }

  /** What a CR runs: the line if it is valid; for a blank one the last request; "" for neither. */
  function Entered(l: Input.LineState, last: string): string {
    if l.invalid then "" else if l.text != "" then l.text else last
  }

  // ---------- The session, byte by byte ----------

  function EchoOf(s: Settings, c: byte): string {
    if !s.echo then "" else if c == CR then LineEnd(s) else [c as char]
  }

  /** The interpreter reads a byte, or finds none. */
  function Reading(a: Moment, c: int, from: nat): Moment {
    a.(trace := a.trace + [ByteRead(c, from)], sum := Next(a.sum, ByteRead(c, from)))
  }

  /** `text`, then the prompt, and nothing else. */
  predicate ToldAndPrompted(a: Moment, b: Moment, text: string) {
    b.trace != []
    && var e := b.trace[|b.trace| - 1];
       e.Prompted? && Told(a, b.(trace := b.trace[..|b.trace| - 1], sum := Outputting(a.sum, text)), text)
       && b.sum == Next(Outputting(a.sum, text), e)
  }

  /** One byte, from where the interpreter looks for it: what a CR ran, from `begun` to `done`, and
      where it was left. */
  datatype Turn = Turn(c: byte, from: nat, begun: Moment, done: Moment, deed: Deed, left: Moment)

  /** LF is ignored; another byte is echoed; a CR is echoed, runs the line that is due, and prompts. */
  ghost predicate TurnWent(a: Moment, t: Turn) {
    var m := Reading(a, t.c, t.from);
    if t.c == LF then t.left == m
    else if t.c != CR then Told(m, t.left, EchoOf(m.settings, t.c))
    else
      Told(m, t.begun, EchoOf(m.settings, CR))
      && LineDid(t.begun, t.done, Entered(Input.LineOf(m.sum.session.keys.entered), m.last), t.deed)
      && ToldAndPrompted(t.done, t.left, EndOf(t.done))
  }

  /** Where the first n bytes leave the session. */
  function LeftBy(a: Moment, turns: seq<Turn>, n: nat): Moment
    requires n <= |turns|
  {
    if n == 0 then a else turns[n - 1].left
  }

  ghost predicate AllWent(a: Moment, turns: seq<Turn>) {
    forall i :: 0 <= i < |turns| ==> TurnWent(LeftBy(a, turns, i), turns[i])
  }

  lemma TurnsNext(a: Moment, turns: seq<Turn>, t: Turn)
    requires AllWent(a, turns) && TurnWent(LeftBy(a, turns, |turns|), t)
    ensures AllWent(a, turns + [t])
  {
    hide TurnWent;
    var all := turns + [t];
    forall i | 0 <= i < |all| ensures TurnWent(LeftBy(a, all, i), all[i]) {
      if i < |turns| { assert TurnWent(LeftBy(a, turns, i), turns[i]); }
    }
  }

  /** A round of the main loop: perhaps the session has moved; then every byte that waited, up to
      looking for one and finding none (`last`, of session `from`). */
  datatype Round = Round(moved: Option<bool>, turns: seq<Turn>, last: int, from: nat, left: Moment)

  /** A move: what was typed on the other link is forgotten, and a WRITE tier does not come to TCP. */
  function Moving(a: Moment, moved: Option<bool>): Moment {
    if moved.None? then a
    else
      var m := a.(trace := a.trace + [Moved(moved.value)], sum := Next(a.sum, Moved(moved.value)), last := "");
      if moved.value && a.sum.session.tier == Write then
        m.(trace := m.trace + [TierChanged(Read)], sum := Next(m.sum, TierChanged(Read)))
      else m
  }

  ghost predicate RoundWent(a: Moment, r: Round) {
    var b := Moving(a, r.moved);
    AllWent(b, r.turns) && r.last < 0 && r.left == Reading(LeftBy(b, r.turns, |r.turns|), r.last, r.from)
  }

  function LeftAfter(a: Moment, rounds: seq<Round>, n: nat): Moment
    requires n <= |rounds|
  {
    if n == 0 then a else rounds[n - 1].left
  }

  /** A run of the main loop: round after round, with nothing between them. */
  ghost predicate RoundsWent(a: Moment, rounds: seq<Round>) {
    forall i :: 0 <= i < |rounds| ==> RoundWent(LeftAfter(a, rounds, i), rounds[i])
  }

  lemma RoundsNext(a: Moment, rounds: seq<Round>, r: Round)
    requires RoundsWent(a, rounds) && RoundWent(LeftAfter(a, rounds, |rounds|), r)
    ensures RoundsWent(a, rounds + [r])
  {
    hide RoundWent;
    var all := rounds + [r];
    forall i | 0 <= i < |all| ensures RoundWent(LeftAfter(a, all, i), all[i]) {
      if i < |rounds| { assert RoundWent(LeftAfter(a, rounds, i), rounds[i]); }
    }
  }

  /** Power-up: defaults, nothing heard, and the banner and the prompt on an empty record. */
  const SWITCHED_ON := Moment([], FRESH, DEFAULTS, ProtocolSel(Unset, true), "", [], false)

  /** The row AT#GUARD with a tier is spelled out. */
  lemma GuardRowSpells(body: string, x: Args)
    requires Matches(GuardSet, body) == Some(x)
    ensures body == "#GUARD" + TierText(x.tier)
  {
    assert body == body[..6] + body[6..];
  }
}
