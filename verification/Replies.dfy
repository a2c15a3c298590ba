/** What the interpreter writes and sets (lib/elm/src/elm.cpp, lib/elm/src/at_table.cpp,
    lib/elm/src/text.cpp): the lines of frames and outcomes, of the survey and the self-test, and what
    each AT command does to the settings. */
module Replies {
  import opened CanTypes
  import opened Config
  import opened WriteGuard
  import opened Exchange
  import opened Procedures
  import opened Record
  import opened AtTable
  import Padding
  import ReplyText
  import Text

  // ---------- What is written ----------

  function LineEnd(s: Settings): string { if s.linefeeds then "\r\n" else "\r" }

  /** Each line, followed by the line end. */
  function Rendered(lines: seq<string>, end: string): string {
    if lines == [] then "" else Rendered(lines[..|lines| - 1], end) + lines[|lines| - 1] + end
  }

  lemma {:induction false} RenderedConcat(a: seq<string>, b: seq<string>, end: string)
    ensures Rendered(a + b, end) == Rendered(a, end) + Rendered(b, end)
    decreases |b|
  {
    if b == [] {
      assert a + b == a;
    } else {
      var front, last := b[..|b| - 1], b[|b| - 1];
      RenderedConcat(a, front, end);
      assert (a + b)[..|a + b| - 1] == a + front;
      JoinEnds(Rendered(a, end), Rendered(front, end), last, end);
    }
  }

  lemma JoinEnds(x: string, y: string, line: string, end: string)
    ensures x + y + line + end == x + (y + line + end)
  {
  }

  lemma RenderedNext(lines: seq<string>, line: string, end: string)
    ensures Rendered(lines + [line], end) == Rendered(lines, end) + line + end
  {
    assert (lines + [line])[..|lines|] == lines;
  }

  /** The formatter's countdown after some frames: it only runs where payload is shown. */
  function TableAfter(s: Settings, fs: seq<CanFrame>): (t: Text.Table)
    ensures |t| <= Text.SLOTS
  {
    if !s.caf || s.headers then [] else Padding.ShowAll(fs)
  }

  /** The lines printed for a run of frames. */
  function Screen(s: Settings, monitor: bool, fs: seq<CanFrame>): seq<string> {
    if fs == [] then []
    else
      var front := fs[..|fs| - 1];
      Screen(s, monitor, front) + Text.Lines(s, monitor, TableAfter(s, front), fs[|fs| - 1])
  }

  /** With headers on and the DLC not shown, each frame is one line, the one the scanner reads. */
  lemma {:induction false} ScreenIsPrinted(s: Settings, monitor: bool, fs: seq<CanFrame>)
    requires s.headers && !s.dlc
    ensures Screen(s, monitor, fs) == ReplyText.PrintAll(s.spaces, fs)
  {
    hide Text.Lines, ReplyText.Printed;
    if fs != [] {
      var front := fs[..|fs| - 1];
      ScreenIsPrinted(s, monitor, front);
      ReplyText.PrintedIsFormatted(s, monitor, TableAfter(s, front), fs[|fs| - 1]);
    }
  }

  function OutcomeLines(o: Outcome): seq<string> {
    match o
    case Answered => []
    case SentOnly => []
    case NoData => ["NO DATA"]
    case Blocked => ["BLOCKED"]
    case CanError => ["CAN ERROR"]
    case Stopped => ["STOPPED"]
    case BufferFull => ["BUFFER FULL"]
    case UnableToConnect => ["UNABLE TO CONNECT"]
  }

  /** What a reply to a request consists of: the logged frames, then the outcome. */
  function ReplyTo(s: Settings, log: seq<CanFrame>, o: Outcome): string {
    Rendered(Screen(s, false, log) + OutcomeLines(o), LineEnd(s))
  }

  const BANNER := "ELM327 v1.5"

  // ---------- AT commands that only change the settings ----------

  /** What flow-control modes 1 and 2 need is there. */
  predicate FlowReady(s: Settings) {
    s.fc.mode <= 2 && (s.fc.mode >= 1 ==> s.fc.data != []) && (s.fc.mode == 1 ==> s.fc.header.digits != 0)
  }

  function ProtocolOf(v: nat): Protocol {
    match v
    case 0 => Unset
    case 1 => J1850Pwm
    case 2 => J1850Vpw
    case 3 => Iso9141
    case 4 => Kwp5Baud
    case 5 => KwpFast
    case 6 => Can11_500
    case 7 => Can29_500
    case 8 => Can11_250
    case _ => Can29_250
  }

  function Selection(a: Args): ProtocolSel { ProtocolSel(ProtocolOf(a.value), a.automatic) }

  function HeaderOf(a: Args): TxHeader
    requires ArgsFit(Header, a)
  {
    TxHeader(a.value, a.count)
  }

  function FullMask(digits: nat): uint32 { if digits == 8 then 0x1FFF_FFFF else 0x7FF }

  /** The rows that set one flag. */
  function WithFlag(s: Settings, r: Row, on: bool): Settings {
    match r
    case E => s.(echo := on)
    case L => s.(linefeeds := on)
    case S => s.(spaces := on)
    case H => s.(headers := on)
    case R => s.(responses := on)
    case V => s.(varDlc := on)
    case Dlc => s.(dlc := on)
    case Caf => s.(caf := on)
    case Cfc => s.(cfc := on)
    case Al => s.(allowLong := true)
    case Nl => s.(allowLong := false)
    case _ => s
  }

  /** The rows that set one number. */
  function WithValue(s: Settings, r: Row, a: Args): Settings
    requires ArgsFit(ShapeOf(r), a)
  {
    match r
    case Adaptive => s.(adaptive := a.value)
    case St => s.(stTicks := if a.value == 0 then 0x32 else a.value)
    case Sh => s.(header := HeaderOf(a))
    case Cp => s.(canPriority := a.value % 0x20)
    case Tp => s.(protocol := Selection(a))
    case _ => s
  }

  function FilterAfter(rx: RxFilter, r: Row, a: Args): RxFilter {
    match r
    case Ar => Auto
    case Cra => Auto
    case CraPattern => RxFilter.Pattern(a.value, a.mask)
    case Cf => RxFilter.Pattern(a.value, if rx.Auto? then FullMask(a.count) else rx.mask)
    case Cm => RxFilter.Pattern(if rx.Auto? then 0 else rx.id, a.value)
    case _ => rx
  }

  /** None for "?": modes 1 and 2 need what they send defined first. */
  function FlowAfter(fc: FlowSettings, r: Row, a: Args): (f: Option<FlowSettings>)
    requires ArgsFit(ShapeOf(r), a)
  {
    match r
    case Fcsh => Some(fc.(header := HeaderOf(a)))
    case Fcsd => Some(fc.(data := a.bytes))
    case Fcsm =>
      if a.value >= 1 && fc.data == [] then None
      else if a.value == 1 && fc.header.digits == 0 then None
      else Some(fc.(mode := a.value))
    case _ => Some(fc)
  }

  /** The settings after a row that changes nothing else; None for "?". */
  function Changed(s: Settings, r: Row, a: Args): Option<Settings>
    requires ArgsFit(ShapeOf(r), a)
  {
    var flow := FlowAfter(s.fc, r, a);
    if flow.None? then None
    else Some(WithValue(WithFlag(s, r, a.value != 0), r, a).(rx := FilterAfter(s.rx, r, a), fc := flow.value))
  }

  /** No command can leave a flow-control mode without what it needs. */
  lemma FlowStaysReady(s: Settings, r: Row, a: Args)
    requires ArgsFit(ShapeOf(r), a) && FlowReady(s)
    ensures Changed(s, r, a).Some? ==> FlowReady(Changed(s, r, a).value)
  {
  }

  /** What an AT command does to the settings: a reset goes back to the defaults and the stored
      protocol. */
  function SettingsAfter(s: Settings, stored: ProtocolSel, r: Row, a: Args): Settings
    requires ArgsFit(ShapeOf(r), a)
  {
    if r.Z? || r.Ws? || r.Defaults? then DEFAULTS.(protocol := stored)
    else if r.Sp? then s.(protocol := Selection(a))
    else Changed(s, r, a).GetOr(s)
  }

  datatype AtReply = Ok | Bad | Printed

  function ProtocolName(p: Protocol): string {
    match p
    case Unset => ""
    case J1850Pwm => "SAE J1850 PWM"
    case J1850Vpw => "SAE J1850 VPW"
    case Iso9141 => "ISO 9141-2"
    case Kwp5Baud => "ISO 14230-4 (KWP 5BAUD)"
    case KwpFast => "ISO 14230-4 (KWP FAST)"
    case Can11_500 => "ISO 15765-4 (CAN 11/500)"
    case Can29_500 => "ISO 15765-4 (CAN 29/500)"
    case Can11_250 => "ISO 15765-4 (CAN 11/250)"
    case Can29_250 => "ISO 15765-4 (CAN 29/250)"
  }

  function ProtocolDigit(p: Protocol): char {
    match p
    case Unset => '0'
    case J1850Pwm => '1'
    case J1850Vpw => '2'
    case Iso9141 => '3'
    case Kwp5Baud => '4'
    case KwpFast => '5'
    case Can11_500 => '6'
    case Can29_500 => '7'
    case Can11_250 => '8'
    case Can29_250 => '9'
  }

  /** The rows that print one line about what is set, or a fixed one. */
  function InfoLine(r: Row, sel: ProtocolSel, tier: Tier): Option<string> {
    match r
    case I => Some(BANNER)
    case At1 => Some("OBDII to RS232 Interpreter")
    case Rv => Some("12.0V")
    case Dp =>
      if sel.current == Unset then Some("AUTO")
      else Some((if sel.automatic then "AUTO, " else "") + ProtocolName(sel.current))
    case Dpn => Some((if sel.automatic then "A" else "") + [ProtocolDigit(sel.current)])
    case Si => Some("BUS INIT: ...ERROR")
    case Fi => Some("BUS INIT: ...ERROR")
    case GuardShow => Some(TierText(tier))
    case _ => None
  }

  lemma NothingRendered(before: string, end: string)
    ensures before + Rendered([], end) == before
  {
  }

  lemma NothingShown(s: Settings, monitor: bool)
    ensures Screen(s, monitor, []) == [] && TableAfter(s, []) == []
  {
  }

  lemma ShownNext(s: Settings, monitor: bool, fs: seq<CanFrame>, f: CanFrame, end: string)
    ensures Screen(s, monitor, fs + [f]) == Screen(s, monitor, fs) + Text.Lines(s, monitor, TableAfter(s, fs), f)
    ensures Rendered(Screen(s, monitor, fs + [f]), end)
      == Rendered(Screen(s, monitor, fs), end) + Rendered(Text.Lines(s, monitor, TableAfter(s, fs), f), end)
    ensures TableAfter(s, fs + [f])
      == if !s.caf || s.headers then TableAfter(s, fs) else Text.ShowPayload(TableAfter(s, fs), f).table
  {
    hide Rendered, Text.Lines, Text.ShowPayload;
    assert (fs + [f])[..|fs|] == fs;
    RenderedConcat(Screen(s, monitor, fs), Text.Lines(s, monitor, TableAfter(s, fs), f), end);
  }

  // ---------- The monitor, the survey and the self-test ----------

  function Accepted(acc: Acceptance, fs: seq<CanFrame>): seq<CanFrame> {
    if fs == [] then []
    else Accepted(acc, fs[..|fs| - 1]) + (if acc.Accepts(fs[|fs| - 1].id) then [fs[|fs| - 1]] else [])
  }

  lemma AcceptedNext(acc: Acceptance, fs: seq<CanFrame>, f: CanFrame)
    ensures Accepted(acc, fs + [f]) == Accepted(acc, fs) + (if acc.Accepts(f.id) then [f] else [])
  {
    assert (fs + [f])[..|fs|] == fs;
  }

  const SURVEY_RATES: seq<Bitrate> := [K500, K250, K125, K100]
  const SURVEY_WINDOW_MS := 1000
  const SURVEY_IDS := 16
  const REPORT_LINE := 128

  function Kbit(r: Bitrate): nat {
    match r
    case K500 => 500
    case K250 => 250
    case K125 => 125
    case K100 => 100
  }

  function NumberText(v: nat): string {
    (if v < 10 then "" else NumberText(v / 10)) + [(v % 10 + 48) as char]
  }

  function DecimalValue(s: string): int {
    if s == "" then 0 else 10 * DecimalValue(s[..|s| - 1]) + (s[|s| - 1] as int - '0' as int)
  }

  /** A count is printed as its decimal digits, the first of them no zero unless it is the only one. */
  lemma {:induction false} NumberComesBack(v: nat)
    ensures var s := NumberText(v);
      s != "" && DecimalValue(s) == v && (|s| > 1 ==> s[0] != '0') && forall i :: 0 <= i < |s| ==> '0' <= s[i] <= '9'
  {
    var s := NumberText(v);
    if v >= 10 {
      NumberComesBack(v / 10);
      assert s[..|s| - 1] == NumberText(v / 10);
    } else {
      assert s[..|s| - 1] == "";
    }
  }

  function IdList(ids: seq<CanId>): string {
    if ids == [] then "" else IdList(ids[..|ids| - 1]) + " " + Text.WithCanId(false, "", ids[|ids| - 1])
  }

  /** A report line holds 127 characters; the rest is dropped. */
  function Clipped(s: string): string { if |s| < REPORT_LINE then s else s[..REPORT_LINE - 1] }

  function SurveyLine(rate: Bitrate, r: RateReport, ids: seq<CanId>): string {
    Clipped(NumberText(Kbit(rate)) + " kbit: "
      + (if r.setupFailed then "SETUP FAILED"
         else NumberText(r.frames) + " frames, errors " + NumberText(r.errors)
              + (if ids == [] then "" else ", ids" + IdList(ids) + (if |ids| == SURVEY_IDS then " ..." else ""))))
  }

  function WiringLines(found: Option<Bitrate>, errors: nat): seq<string> {
    if found.Some? then [Clipped("WIRING: OK, bus decoding cleanly at " + NumberText(Kbit(found.value)) + " kbit")]
    else if errors > 0 then
      ["WIRING: CONNECTED to a live bus, but nothing decoded:",
       "swap CAN-H and CAN-L, or the bus runs at a rate not tried"]
    else
      ["WIRING: NOT CONNECTED, zero frames and zero errors at every rate:",
       "wrong OBD pins, broken cable, or bus asleep (ignition on?)"]
  }

  /** Nothing but output on this stretch of the record. */
  predicate OnlyWrites(tr: seq<Event>, from: nat, to: nat) {
    from <= to <= |tr| && forall k :: from <= k < to ==> tr[k].Wrote?
  }

  lemma WritesStay(before: seq<Event>, after: seq<Event>, from: nat, to: nat)
    requires before <= after && OnlyWrites(before, from, to)
    ensures OnlyWrites(after, from, to)
  {
  }

  lemma WritesJoin(before: seq<Event>, after: seq<Event>, from: nat)
    requires before <= after && OnlyWrites(before, from, |before|) && OnlyWrites(after, |before|, |after|)
    ensures OnlyWrites(after, from, |after|)
  {
    forall k | from <= k < |after| ensures after[k].Wrote? {
      if k < |before| { assert before[k] == after[k]; }
    }
  }

  /** What one rate of the survey found, and the stretch of the record that shows it. */
  datatype Rated = Rated(report: RateReport, ids: seq<CanId>, from: nat, to: nat)

  function RatedUpTo(start: nat, rs: seq<Rated>): nat { if rs == [] then start else rs[|rs| - 1].to }

  /** From `start` on, the record is each rate surveyed in turn, its report being what the record
      shows, and output. */
  predicate RatedOnRecord(tr: seq<Event>, start: nat, rs: seq<Rated>) {
    |rs| <= |SURVEY_RATES| && (forall i :: 0 <= i < |rs| ==> RatedAt(tr, start, rs, i))
    && OnlyWrites(tr, RatedUpTo(start, rs), |tr|)
  }

  predicate RatedAt(tr: seq<Event>, start: nat, rs: seq<Rated>, i: nat)
    requires i < |rs| && i < |SURVEY_RATES|
  {
    OnlyWrites(tr, RatedUpTo(start, rs[..i]), rs[i].from) && Rates(tr, rs[i], i, true)
  }

  predicate Rates(tr: seq<Event>, r: Rated, i: nat, finished: bool)
    requires i < |SURVEY_RATES|
  {
    r.from <= r.to <= |tr|
    && SurveyShows(tr[r.from..r.to], SURVEY_RATES[i], SURVEY_WINDOW_MS, finished, r.report, r.ids, SURVEY_IDS)
  }

  /** The same, up to a rate that a byte cut short. */
  predicate CutOnRecord(tr: seq<Event>, start: nat, rs: seq<Rated>, cut: Rated) {
    |rs| < |SURVEY_RATES| && cut.from <= |tr| && RatedOnRecord(tr[..cut.from], start, rs) && Rates(tr, cut, |rs|, false)
    && OnlyWrites(tr, cut.to, |tr|)
  }

  lemma RatedStays(before: seq<Event>, after: seq<Event>, start: nat, rs: seq<Rated>)
    requires before <= after && RatedOnRecord(before, start, rs) && OnlyWrites(after, |before|, |after|)
    ensures RatedOnRecord(after, start, rs)
  {
    hide OnlyWrites, SurveyShows;
    WritesJoin(before, after, RatedUpTo(start, rs));
    forall i | 0 <= i < |rs| ensures RatedAt(after, start, rs, i) { RatedLonger(before, after, start, rs, i); }
  }

  lemma RatedLonger(before: seq<Event>, after: seq<Event>, start: nat, rs: seq<Rated>, i: nat)
    requires before <= after && i < |rs| && i < |SURVEY_RATES| && RatedAt(before, start, rs, i)
    ensures RatedAt(after, start, rs, i)
  {
    hide OnlyWrites, SurveyShows;
    WritesStay(before, after, RatedUpTo(start, rs[..i]), rs[i].from);
    assert after[rs[i].from..rs[i].to] == before[rs[i].from..rs[i].to];
  }

  lemma RatedMore(before: seq<Event>, after: seq<Event>, start: nat, rs: seq<Rated>, r: Rated)
    requires |rs| < |SURVEY_RATES| && before <= after && RatedOnRecord(before, start, rs)
    requires r.from == |before| && Rates(after, r, |rs|, true) && OnlyWrites(after, r.to, |after|)
    ensures RatedOnRecord(after, start, rs + [r])
  {
    hide OnlyWrites, SurveyShows;
    var all := rs + [r];
    forall i | 0 <= i < |rs| ensures RatedAt(after, start, all, i) {
      assert RatedAt(before, start, rs, i);
      RatedLonger(before, after, start, rs, i);
      assert all[i] == rs[i] && all[..i] == rs[..i];
    }
    assert all[..|rs|] == rs;
    WritesStay(before, after, RatedUpTo(start, rs), |before|);
    assert RatedAt(after, start, all, |rs|);
  }

  function SurveyLines(rs: seq<Rated>): seq<string>
    requires |rs| <= |SURVEY_RATES|
  {
    if rs == [] then []
    else
      var last := rs[|rs| - 1];
      SurveyLines(rs[..|rs| - 1]) + [SurveyLine(SURVEY_RATES[|rs| - 1], last.report, last.ids)]
  }

  function ErrorsOf(rs: seq<Rated>): nat {
    if rs == [] then 0 else ErrorsOf(rs[..|rs| - 1]) + rs[|rs| - 1].report.errors
  }

  predicate AnyConfigured(rs: seq<Rated>) {
    exists i :: 0 <= i < |rs| && !rs[i].report.setupFailed
  }

  /** The survey goes through the rates in order and stops at the first that decodes frames. */
  predicate StopsAtFrames(rs: seq<Rated>, finished: bool) {
    |rs| <= |SURVEY_RATES| && (forall i :: 0 <= i < |rs| - 1 ==> rs[i].report.frames == 0)
    && if finished then |rs| == |SURVEY_RATES| || (rs != [] && rs[|rs| - 1].report.frames > 0)
       else rs == [] || rs[|rs| - 1].report.frames == 0
  }

  function SurveyVerdict(rs: seq<Rated>): seq<string>
    requires |rs| <= |SURVEY_RATES|
  {
    if !AnyConfigured(rs) then ["WIRING: UNKNOWN, the CAN controller could not be configured (run AT#SELFTEST)"]
    else
      WiringLines(if rs[|rs| - 1].report.frames > 0 then Some(SURVEY_RATES[|rs| - 1]) else None, ErrorsOf(rs))
  }

  lemma RatedNext(rs: seq<Rated>, r: Rated)
    requires |rs| < |SURVEY_RATES|
    ensures SurveyLines(rs + [r]) == SurveyLines(rs) + [SurveyLine(SURVEY_RATES[|rs|], r.report, r.ids)]
    ensures ErrorsOf(rs + [r]) == ErrorsOf(rs) + r.report.errors
    ensures AnyConfigured(rs + [r]) <==> AnyConfigured(rs) || !r.report.setupFailed
  {
    hide SurveyLine, AnyConfigured;
    assert (rs + [r])[..|rs|] == rs;
    ConfiguredNext(rs, r);
  }

  lemma ConfiguredNext(rs: seq<Rated>, r: Rated)
    ensures AnyConfigured(rs + [r]) <==> AnyConfigured(rs) || !r.report.setupFailed
  {
    var all := rs + [r];
    assert all[|rs|] == r;
    forall i | 0 <= i < |rs| ensures all[i] == rs[i] {}
  }

  lemma VerdictIs(rs: seq<Rated>, errors: nat, configured: bool, found: Option<Bitrate>)
    requires |rs| <= |SURVEY_RATES| && errors == ErrorsOf(rs) && (configured <==> AnyConfigured(rs))
    requires found == if rs != [] && rs[|rs| - 1].report.frames > 0 then Some(SURVEY_RATES[|rs| - 1]) else None
    ensures SurveyVerdict(rs)
      == if configured then WiringLines(found, errors)
         else ["WIRING: UNKNOWN, the CAN controller could not be configured (run AT#SELFTEST)"]
  {
  }

  lemma NothingRated(before: string, end: string)
    ensures before + Rendered(SurveyLines([]), end) == before && ErrorsOf([]) == 0 && !AnyConfigured([])
  {
  }

  lemma OneMoreLine(before: string, lines: seq<string>, line: string, end: string)
    ensures before + Rendered(lines, end) + (line + end) == before + Rendered(lines + [line], end)
  {
    hide Rendered;
    RenderedNext(lines, line, end);
  }

  function LoopbackText(r: LoopbackResult): string {
    match r
    case Pass => "PASS"
    case Fail => "FAIL"
    case SetupFailed => "SETUP FAILED"
    case LoopInterrupted => ""
  }

  function LoopbackLine(rate: Bitrate, r: LoopbackResult): string {
    if r == LoopInterrupted then "STOPPED" else "LOOPBACK " + NumberText(Kbit(rate)) + " kbit: " + LoopbackText(r)
  }

  /** What one rate of the self-test gave, and the stretch of the record that shows it. */
  datatype Looped = Looped(result: LoopbackResult, course: ProbeCourse, from: nat, to: nat)

  function LoopedUpTo(start: nat, rs: seq<Looped>): nat { if rs == [] then start else rs[|rs| - 1].to }

  /** From `start` on, the record is one round trip after the other, each result being what the record
      shows, and output. */
  predicate LoopedOnRecord(tr: seq<Event>, start: nat, rs: seq<Looped>) {
    |rs| <= |SURVEY_RATES| && (forall i :: 0 <= i < |rs| ==> LoopedAt(tr, start, rs, i))
    && OnlyWrites(tr, LoopedUpTo(start, rs), |tr|)
  }

  predicate LoopedAt(tr: seq<Event>, start: nat, rs: seq<Looped>, i: nat)
    requires i < |rs| && i < |SURVEY_RATES|
  {
    OnlyWrites(tr, LoopedUpTo(start, rs[..i]), rs[i].from) && Loops(tr, rs[i], i)
  }

  predicate Loops(tr: seq<Event>, r: Looped, i: nat)
    requires i < |SURVEY_RATES|
  {
    r.from <= r.to <= |tr| && LoopShows(tr[r.from..r.to], SURVEY_RATES[i], r.result, r.course)
  }

  lemma LoopedStays(before: seq<Event>, after: seq<Event>, start: nat, rs: seq<Looped>)
    requires before <= after && LoopedOnRecord(before, start, rs) && OnlyWrites(after, |before|, |after|)
    ensures LoopedOnRecord(after, start, rs)
  {
    hide OnlyWrites, LoopShows;
    WritesJoin(before, after, LoopedUpTo(start, rs));
    forall i | 0 <= i < |rs| ensures LoopedAt(after, start, rs, i) { LoopedLonger(before, after, start, rs, i); }
  }

  lemma LoopedLonger(before: seq<Event>, after: seq<Event>, start: nat, rs: seq<Looped>, i: nat)
    requires before <= after && i < |rs| && i < |SURVEY_RATES| && LoopedAt(before, start, rs, i)
    ensures LoopedAt(after, start, rs, i)
  {
    hide OnlyWrites, LoopShows;
    WritesStay(before, after, LoopedUpTo(start, rs[..i]), rs[i].from);
    assert after[rs[i].from..rs[i].to] == before[rs[i].from..rs[i].to];
  }

  lemma LoopedMore(before: seq<Event>, after: seq<Event>, start: nat, rs: seq<Looped>, r: Looped)
    requires |rs| < |SURVEY_RATES| && before <= after && LoopedOnRecord(before, start, rs)
    requires r.from == |before| && Loops(after, r, |rs|) && OnlyWrites(after, r.to, |after|)
    ensures LoopedOnRecord(after, start, rs + [r])
  {
    hide OnlyWrites, LoopShows;
    var all := rs + [r];
    forall i | 0 <= i < |rs| ensures LoopedAt(after, start, all, i) {
      assert LoopedAt(before, start, rs, i);
      LoopedLonger(before, after, start, rs, i);
      assert all[i] == rs[i] && all[..i] == rs[..i];
    }
    assert all[..|rs|] == rs;
    WritesStay(before, after, LoopedUpTo(start, rs), |before|);
    assert LoopedAt(after, start, all, |rs|);
  }

  predicate AnyPassed(rs: seq<Looped>) { exists i :: 0 <= i < |rs| && rs[i].result == Pass }

  function LoopbackLines(rs: seq<Looped>): seq<string>
    requires |rs| <= |SURVEY_RATES|
  {
    if rs == [] then [] else LoopbackLines(rs[..|rs| - 1]) + [LoopbackLine(SURVEY_RATES[|rs| - 1], rs[|rs| - 1].result)]
  }

  lemma LoopbackNext(rs: seq<Looped>, r: Looped)
    requires |rs| < |SURVEY_RATES|
    ensures LoopbackLines(rs + [r]) == LoopbackLines(rs) + [LoopbackLine(SURVEY_RATES[|rs|], r.result)]
    ensures AnyPassed(rs + [r]) <==> AnyPassed(rs) || r.result == Pass
  {
    hide LoopbackLine, AnyPassed;
    assert (rs + [r])[..|rs|] == rs;
    PassedNext(rs, r);
  }

  lemma PassedNext(rs: seq<Looped>, r: Looped)
    ensures AnyPassed(rs + [r]) <==> AnyPassed(rs) || r.result == Pass
  {
    var all := rs + [r];
    assert all[|rs|] == r;
    forall i | 0 <= i < |rs| ensures all[i] == rs[i] {}
  }

  function ControllerLine(present: bool, detail: string): string {
    "MCP2515 " + detail + (if present then ": PASS" else ": FAIL")
  }

  /** The self-test's whole text: the controller, each rate, and PASS if any frame came back. */
  function SelfTestText(present: bool, detail: string, rs: seq<Looped>): seq<string>
    requires |rs| <= |SURVEY_RATES|
  {
    [ControllerLine(present, detail)] + LoopbackLines(rs)
    + (if rs != [] && rs[|rs| - 1].result == LoopInterrupted then []
       else [if AnyPassed(rs) then "SELFTEST: PASS" else "SELFTEST: FAIL"])
  }

  /** The rates were tried in order, unless the controller is absent, until a byte interrupted. */
  predicate LoopedThrough(present: bool, rs: seq<Looped>) {
    |rs| <= |SURVEY_RATES| && (forall i :: 0 <= i < |rs| - 1 ==> rs[i].result != LoopInterrupted)
    && if present then |rs| == |SURVEY_RATES| || (rs != [] && rs[|rs| - 1].result == LoopInterrupted) else rs == []
  }
}
