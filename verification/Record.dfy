/** The record of a run: everything the core does on the controller, the clock, the links and the
    guard, in order; what the record adds up to; and what a safe record is. Nothing here is chosen
    by whoever acts: every judgement is about an event and the events before it. */
module Record {
  import opened CanTypes
  import opened WriteGuard
  import opened Links
  import Input

  /** What a frame is sent for. */
  datatype Purpose = Request | FlowReply | Probe

  datatype Event =
    | ByteRead(c: int, from: nat)
    | NoFrame
    | Received(frame: CanFrame, mode: Option<CanMode>)
    | Clock(now: uint32)
    | Opened(rate: Bitrate, openMode: CanMode, acc: Acceptance, ok: bool)
    | Closed
    | Probed(present: bool, detail: string)
    | Health(health: CanHealth)
    | Judged(offer: CanFrame)
    | Withheld
    | SendTried(sent: CanFrame, purpose: Purpose, sendMode: Option<CanMode>, sendRate: Bitrate, sentOk: bool, onTcp: bool)
    | TierChanged(tier: Tier)
    | WifiLine(status: Option<string>)
    | Moved(toTcp: bool)
    | Executed(line: string)
    | Wrote(text: string, wroteMode: Option<CanMode>)
    | Prompted(promptMode: Option<CanMode>)
    | Flushed

  const LF := 10
  const CR := 13

  // ---------- What a record adds up to ----------

  /** The bytes typed since the last CR, and those of the line before it. */
  datatype Keys = Keys(line: seq<byte>, entered: seq<byte>)

  /** What only the interpreter changes: the session, the tier, what was typed, run and written.
      A line runs from its start to the prompt: a byte read meanwhile was taken by a wait, any other
      was typed. `lines` are the lines run in this session. */
  datatype Session = Session(moves: nat, onTcp: bool, tier: Tier, keys: Keys, crs: nat, running: bool,
                             executed: seq<string>, lines: set<string>, output: string)

  /** The whole: the session, the guard's history, the frames that listening received, the sends,
      and how many bytes interrupted a wait. */
  datatype Digest = Digest(session: Session, history: History, listened: seq<CanFrame>, sent: seq<Event>,
                           interrupts: nat)

  const FRESH := Digest(Session(0, false, Read, Keys([], []), 0, false, [], {}, ""), [], [], [], 0)

  function Typed(k: Keys, c: int): Keys {
    if c == CR then Keys([], k.line) else if 0 <= c < 0x100 && c != LF then k.(line := k.line + [c]) else k
  }

  function SessionNext(s: Session, e: Event): Session {
    match e
    case ByteRead(c, _) =>
      if s.running then s else s.(keys := Typed(s.keys, c), crs := s.crs + if c == CR then 1 else 0)
    case TierChanged(t) => s.(tier := t)
    case Moved(toTcp) => s.(moves := s.moves + 1, onTcp := toTcp, keys := Keys([], []), lines := {})
    case Executed(line) => s.(running := true, executed := s.executed + [line], lines := s.lines + {line})
    case Wrote(text, _) => s.(output := s.output + text)
    case Prompted(_) => s.(running := false, output := s.output + ">")
    case _ => s
  }

  function Heard(e: Event): seq<CanFrame> {
    if e.Received? && e.mode == Some(ListenOnly) then [e.frame] else []
  }

  function Guarded(e: Event): History {
    if Heard(e) != [] then [HeardTraffic(e.frame.id)]
    else match e
      case Judged(f) => [Offered(f)]
      case TierChanged(t) => [TierSet(t)]
      case _ => []
  }

  predicate Interrupts(s: Session, e: Event) { s.running && e.ByteRead? && e.c != NOTHING && e.c != LF }

  /** Events that add nothing. */
  predicate Idle(e: Event) {
    e.NoFrame? || e.Clock? || e.Opened? || e.Closed? || e.Probed? || e.Health? || e.Withheld? || e.WifiLine?
    || e.Flushed?
  }

  function Next(d: Digest, e: Event): (r: Digest)
    ensures Idle(e) ==> r == d
  {
    Digest(SessionNext(d.session, e), d.history + Guarded(e), d.listened + Heard(e),
           d.sent + (if e.SendTried? then [e] else []), d.interrupts + (if Interrupts(d.session, e) then 1 else 0))
  }

  /** The core has just looked for a byte and found none: so a wait goes on to look for a frame. */
  predicate Looked(before: seq<Event>) {
    before != [] && var e := before[|before| - 1]; e.ByteRead? && e.c == NOTHING
  }

  /** A frame that no wait was looking for was thrown away: it counts for nothing. */
  predicate Dropped(before: seq<Event>, e: Event) { e.Received? && !Looked(before) }

  function Added(d: Digest, before: seq<Event>, e: Event): Digest { if Dropped(before, e) then d else Next(d, e) }

  function Summary(tr: seq<Event>): Digest {
    if tr == [] then FRESH
    else
      var front := tr[..|tr| - 1];
      Added(Summary(front), front, tr[|tr| - 1])
  }

  lemma SummaryNext(tr: seq<Event>, e: Event)
    ensures Summary(tr + [e]) == Added(Summary(tr), tr, e)
  {
    assert (tr + [e])[..|tr|] == tr;
  }

  /** The sends among some events, in order. */
  function Sends(es: seq<Event>): seq<Event> {
    if es == [] then []
    else Sends(es[..|es| - 1]) + (if es[|es| - 1].SendTried? then [es[|es| - 1]] else [])
  }

  function IdsOf(fs: seq<CanFrame>): seq<CanId> {
    if fs == [] then [] else IdsOf(fs[..|fs| - 1]) + [fs[|fs| - 1].id]
  }

  lemma IdsNext(fs: seq<CanFrame>, f: CanFrame)
    ensures IdsOf(fs + [f]) == IdsOf(fs) + [f.id]
  {
    assert (fs + [f])[..|fs|] == fs;
  }

  lemma HeardLogJoin(h: History, e: GuardEvent)
    ensures HeardLog(h + [e]) == HeardLog(h) + (if e.HeardTraffic? then [e.id] else [])
    ensures TierNow(h + [e]) == if e.TierSet? then e.tier else TierNow(h)
  {
    assert (h + [e])[..|h|] == h;
  }

  /** The guard's history holds exactly the ids that listening received, and the tier. */
  lemma {:induction false} HistoryIsRecord(tr: seq<Event>)
    ensures HeardLog(Summary(tr).history) == IdsOf(Summary(tr).listened)
    ensures TierNow(Summary(tr).history) == Summary(tr).session.tier
  {
    if tr != [] {
      var front, e := Summary(tr[..|tr| - 1]), tr[|tr| - 1];
      HistoryIsRecord(tr[..|tr| - 1]);
      GuardedNext(front, e);
    }
  }

  lemma GuardedNext(d: Digest, e: Event)
    requires HeardLog(d.history) == IdsOf(d.listened) && TierNow(d.history) == d.session.tier
    ensures var d' := Next(d, e); HeardLog(d'.history) == IdsOf(d'.listened) && TierNow(d'.history) == d'.session.tier
  {
    hide HeardLog, TierNow, IdsOf;
    if Guarded(e) == [] {
      assert d.history + Guarded(e) == d.history && d.listened + Heard(e) == d.listened;
    } else {
      HeardLogJoin(d.history, Guarded(e)[0]);
      if Heard(e) != [] { IdsNext(d.listened, e.frame); } else { assert d.listened + [] == d.listened; }
    }
  }

  // ---------- A wait, event by event ----------

  const INTERRUPT_LINE_REST_MS := 100

  datatype Wake = GotFrame(frame: CanFrame) | Interrupted | TimedOut

  /** Where a wait stands: about to read a byte, to take a frame, to read the clock; throwing away
      the rest of an interrupting line; over; or somewhere no wait can be. */
  datatype AwaitState =
    | Look | Poll | Time | RestBegins | Rest(until: Deadline) | RestTime(until: Deadline)
    | Woken(wake: Wake) | Astray

  function AwaitStep(d: Deadline, mode: Option<CanMode>, a: AwaitState, e: Event): AwaitState {
    match a
    case Look =>
      if !e.ByteRead? then Astray
      else if e.c == LINK_CLOSED || e.c == CR then Woken(Interrupted)
      else if e.c == LF then Look
      else if e.c == NOTHING then Poll
      else RestBegins
    case Poll =>
      if e == NoFrame then Time
      else if e.Received? && e.mode == mode then Woken(GotFrame(e.frame))
      else Astray
    case Time => if !e.Clock? then Astray else if d.Passed(e.now) then Woken(TimedOut) else Look
    case RestBegins => if e.Clock? then Rest(After(e.now, INTERRUPT_LINE_REST_MS)) else Astray
    case Rest(u) =>
      if !e.ByteRead? then Astray
      else if e.c == LINK_CLOSED || e.c == CR then Woken(Interrupted)
      else if e.c < 0 then RestTime(u) else Rest(u)
    case RestTime(u) => if !e.Clock? then Astray else if u.Passed(e.now) then Woken(Interrupted) else Rest(u)
    case Woken(_) => Astray
    case Astray => Astray
  }

  function AwaitRun(d: Deadline, mode: Option<CanMode>, es: seq<Event>): AwaitState {
    if es == [] then Look else AwaitStep(d, mode, AwaitRun(d, mode, es[..|es| - 1]), es[|es| - 1])
  }

  lemma AwaitNext(d: Deadline, mode: Option<CanMode>, es: seq<Event>, e: Event)
    ensures AwaitRun(d, mode, es + [e]) == AwaitStep(d, mode, AwaitRun(d, mode, es), e)
  {
    assert (es + [e])[..|es|] == es;
  }

  // ---------- Listening: one wait after the other, to one deadline ----------

  datatype Hearing = Hearing(frames: seq<CanFrame>, at: AwaitState)

  function HearingAfter(frames: seq<CanFrame>, a: AwaitState): Hearing {
    if a.Woken? && a.wake.GotFrame? then Hearing(frames + [a.wake.frame], Look) else Hearing(frames, a)
  }

  function ListenRun(d: Deadline, es: seq<Event>): Hearing {
    if es == [] then Hearing([], Look)
    else
      var h := ListenRun(d, es[..|es| - 1]);
      HearingAfter(h.frames, AwaitStep(d, Some(ListenOnly), h.at, es[|es| - 1]))
  }

  /** A complete wait continues the listening. */
  lemma {:induction false} ListenJoins(d: Deadline, es: seq<Event>, wait: seq<Event>)
    requires ListenRun(d, es).at == Look && AwaitRun(d, Some(ListenOnly), wait) != Astray
    ensures ListenRun(d, es + wait) == HearingAfter(ListenRun(d, es).frames, AwaitRun(d, Some(ListenOnly), wait))
    decreases |wait|
  {
    hide AwaitStep;
    if wait == [] {
      assert es + wait == es;
    } else {
      var front := wait[..|wait| - 1];
      NotAstrayBefore(d, Some(ListenOnly), wait);
      ListenJoins(d, es, front);
      assert (es + wait)[..|es + wait| - 1] == es + front;
    }
  }

  lemma NotAstrayBefore(d: Deadline, mode: Option<CanMode>, es: seq<Event>)
    requires es != [] && AwaitRun(d, mode, es) != Astray
    ensures var front := AwaitRun(d, mode, es[..|es| - 1]); front != Astray && !front.Woken?
  {
  }

  // ---------- Listen before talk ----------

  const LBT_WINDOW_MS := 60

  /** A listen window begins: the controller is reset, opened listen-only for every frame, and the
      clock is read. */
  predicate WindowBegins(w: seq<Event>, rate: Bitrate) {
    3 <= |w| && w[0] == Closed && w[1] == Opened(rate, ListenOnly, ACCEPT_ALL, true) && w[2].Clock?
  }

  /** What was heard in the window up to some event. */
  function HeardIn(w: seq<Event>, to: nat): Hearing
    requires 3 <= to <= |w| && w[2].Clock?
  {
    ListenRun(After(w[2].now, LBT_WINDOW_MS), w[3..to])
  }

  /** The window passed without a frame; then the controller's error counters were read. */
  predicate NothingDecoded(w: seq<Event>, rate: Bitrate) {
    4 <= |w| && WindowBegins(w, rate) && w[|w| - 1].Health? && HeardIn(w, |w| - 1) == Hearing([], Woken(TimedOut))
  }

  /** The window passed with frames decoded. */
  predicate FramesDecoded(w: seq<Event>, rate: Bitrate) {
    WindowBegins(w, rate) && HeardIn(w, |w|).at == Woken(TimedOut) && HeardIn(w, |w|).frames != []
  }

  /** `w` is a complete listen window at `rate`, undisturbed for 60 ms: frames were decoded, or none
      and no error. */
  predicate IsWindow(w: seq<Event>, rate: Bitrate) {
    FramesDecoded(w, rate) || (NothingDecoded(w, rate) && NoErrors(w[|w| - 1].health))
  }

  /** A window takes 60 ms: the clock was last read, in it, at least that long after it was first read (and less
      than half the clock's range). */
  lemma WindowTakes60Ms(w: seq<Event>, rate: Bitrate) returns (k: nat)
    requires IsWindow(w, rate)
    ensures 3 <= k < |w| && w[2].Clock? && w[k].Clock? && 60 <= (w[k].now - w[2].now) % WORD < 60 + WORD / 2
  {
    hide ListenRun;
    k := if FramesDecoded(w, rate) then |w| - 1 else |w| - 2;
    ListenedUntil(After(w[2].now, LBT_WINDOW_MS), w[3..k + 1]);
  }

  lemma ListenedUntil(d: Deadline, es: seq<Event>)
    requires ListenRun(d, es).at == Woken(TimedOut)
    ensures es != [] && es[|es| - 1].Clock? && d.Passed(es[|es| - 1].now)
  {
  }

  /** A byte, or the end of the link, interrupted the window. */
  predicate WindowInterrupted(w: seq<Event>, rate: Bitrate) {
    WindowBegins(w, rate) && HeardIn(w, |w|).at == Woken(Interrupted)
  }

  predicate NoErrors(h: CanHealth) { h.errorEvents == 0 && h.rec == 0 }

  /** A close, a reset, another rate, a refused configuration, a failed transmission or one that the guard
      withheld ends a clearance. */
  predicate Breaks(e: Event, rate: Bitrate) {
    match e
    case Closed => true
    case Probed(_, _) => true
    case Opened(r, _, _, ok) => !ok || r != rate
    case SendTried(_, _, _, _, ok, _) => !ok
    case Withheld => true
    case _ => false
  }

  predicate Unbroken(tr: seq<Event>, from: nat, rate: Bitrate) {
    forall k :: from <= k < |tr| ==> !Breaks(tr[k], rate)
  }

  /** A listen window at `rate` was completed and nothing since has broken the clearance. */
  ghost predicate Vouched(tr: seq<Event>, rate: Bitrate) {
    exists i, j :: 0 <= i <= j <= |tr| && IsWindow(tr[i..j], rate) && Unbroken(tr, j, rate)
  }

  lemma VouchedNext(tr: seq<Event>, e: Event, rate: Bitrate)
    requires Vouched(tr, rate) && !Breaks(e, rate)
    ensures Vouched(tr + [e], rate)
  {
    hide IsWindow, Breaks;
    var i, j :| 0 <= i <= j <= |tr| && IsWindow(tr[i..j], rate) && Unbroken(tr, j, rate);
    assert (tr + [e])[i..j] == tr[i..j];
    assert Unbroken(tr + [e], j, rate);
  }

  lemma WindowVouches(before: seq<Event>, w: seq<Event>, rate: Bitrate)
    requires IsWindow(w, rate)
    ensures Vouched(before + w, rate)
  {
    var tr := before + w;
    assert tr[|before|..|tr|] == w;
    assert Unbroken(tr, |tr|, rate);
  }

  // ---------- What a safe record is ----------

  /** The guard as the record knows it lets the frame through. */
  ghost predicate Permitted(d: Digest, f: CanFrame) { Passes(d.history, f) }

  predicate Ends(before: seq<Event>, e: Event) { before != [] && before[|before| - 1] == e }

  /** A request needs a listen window behind it; a flow-control frame answers the first frame that
      was just received; a probe stays inside the controller. */
  ghost predicate Fitting(before: seq<Event>, f: CanFrame, purpose: Purpose, mode: Option<CanMode>, rate: Bitrate) {
    match purpose
    case Request => mode == Some(Normal) && Vouched(before, rate)
    case FlowReply => mode == Some(Normal) && AnswersFirst(before, f)
    case Probe => mode == Some(Loopback)
  }

  predicate AnswersFirst(before: seq<Event>, f: CanFrame) {
    |before| >= 2 && before[|before| - 1] == Judged(f)
    && var e := before[|before| - 2]; e.Received? && e.mode == Some(Normal) && PciOf(e.frame) == First
  }

  /** Frames from before a request are thrown away only right after the guard's verdict on it. */
  predicate Draining(tr: seq<Event>) {
    tr != [] && var e := tr[|tr| - 1]; e.Judged? || (e.Received? && Draining(tr[..|tr| - 1]))
  }

  /** The line is what the bytes before the last CR spell. */
  predicate Spelled(entered: seq<byte>, line: string) { Input.LineOf(entered) == Input.LineState(line, false) }

  predicate IsAt(text: string) { |text| >= 2 && text[0] == 'A' && text[1] == 'T' }

  /** No CR waits for its line to run. */
  predicate AllRun(s: Session) { |s.executed| == s.crs }

  /** What runs after a CR: the line entered; nothing, if that is no line; for a blank one, nothing, or
      a request that already ran in this session. */
  predicate Due(s: Session, line: string) {
    !s.running && s.crs == |s.executed| + 1 && s.keys.line == []
    && var l := Input.LineOf(s.keys.entered);
       if l.invalid then line == ""
       else if l.text != "" then line == l.text
       else line == "" || (line in s.lines && !IsAt(line))
  }

  predicate Mute(mode: Option<CanMode>) { mode == None || mode == Some(ListenOnly) }

  /** What the design promises of an event, given everything before it:
      a byte is read in the session in which it was received, and none is typed while a line is still
      to run; a frame is received by a wait that has just looked for a byte, or thrown away before
      a request; a frame goes out only for a line that runs, only if the guard, with everything it was
      offered, heard and told, lets it through, and never for TCP if it needs WRITE; only a frame the
      guard refuses is withheld; the tier changes only by AT#GUARD, never to WRITE for TCP, or drops to
      READ as the session moves to TCP; the session moves only between lines; every CR runs the line
      that is due; output is written only while the controller is silent, and the prompt only after a
      line, or before the first. */
  ghost predicate Promised(before: seq<Event>, e: Event) {
    var d := Summary(before);
    match e
    case ByteRead(c, from) => (c >= 0 ==> from == d.session.moves) && (d.session.running || AllRun(d.session))
    case Received(_, mode) => d.session.running && (Looked(before) || (mode == Some(ListenOnly) && Draining(before)))
    case SendTried(f, purpose, mode, rate, _, onTcp) =>
      d.session.running && Permitted(d, f) && onTcp == d.session.onTcp && (onTcp ==> RequiredTier(d.history, f) != Write)
      && Fitting(before, f, purpose, mode, rate)
    case Withheld => before != [] && before[|before| - 1].Judged? && !Permitted(d, before[|before| - 1].offer)
    case TierChanged(t) =>
      (Ends(before, Executed("AT#GUARD" + TierText(t))) && (t == Write ==> !d.session.onTcp))
      || (Ends(before, Moved(true)) && t == Read)
    case Moved(_) => !d.session.running && AllRun(d.session)
    case Executed(line) => Due(d.session, line)
    case Wrote(_, mode) => Mute(mode)
    case Prompted(mode) => Mute(mode) && (d.session.running || d.session.crs == 0)
    case _ => true
  }

  ghost predicate Safe(tr: seq<Event>) {
    forall k :: 0 <= k < |tr| ==> Promised(tr[..k], tr[k])
  }

  lemma SafeNext(tr: seq<Event>, e: Event)
    ensures Safe(tr + [e]) <==> Safe(tr) && Promised(tr, e)
  {
    hide Promised;
    var all := tr + [e];
    assert all[..|tr|] == tr;
    forall k | 0 <= k < |tr| ensures all[..k] == tr[..k] && all[k] == tr[k] {}
  }

  // ---------- What follows from it ----------

  /** In a safe record, once listening has received a diagnostic id among the first 128, a frame with
      that id is only ever sent with the WRITE tier, and never for a TCP session. This holds for the
      very request whose listen window received it. */
  lemma HeardIdNeedsWrite(tr: seq<Event>, k: nat)
    requires Safe(tr) && k < |tr| && tr[k].SendTried? && AmongFirst128(IdsOf(Summary(tr[..k]).listened), tr[k].sent.id)
    ensures Summary(tr[..k]).session.tier == Write && !tr[k].onTcp
  {
    hide AmongFirst128, TierNow, Recorded, Summary, Fitting, Due;
    var d := Summary(tr[..k]);
    assert Promised(tr[..k], tr[k]);
    HistoryIsRecord(tr[..k]);
    RecordedFollowsLog(d.history, tr[k].sent.id);
  }

  /** tr[j] is where the guard was offered a first frame on this id that the tier allows. */
  predicate BeganAt(tr: seq<Event>, j: nat, id: CanId, t: Tier) {
    j < |tr| && tr[j].Judged? && tr[j].offer.id == id && tr[j].offer.data != [] && 0x10 <= tr[j].offer.data[0] <= 0x1F
    && AllowedAt(t, tr[j].offer.data)
  }

  /** Main result: what goes out below WRITE, byte by byte. In a safe record every frame sent at READ or
      CLEAR is on a diagnostic id (600 to 7FF, 18DAxxxx or 18DBxxxx) that listening did not record, and
      is flow control, or a single or first frame whose service byte the tier allows, or a consecutive
      frame after such a first frame on the same id. So at READ no request can write, reset or reflash. */
  lemma SentBelowWrite(tr: seq<Event>, k: nat)
    requires Safe(tr) && k < |tr| && tr[k].SendTried? && Summary(tr[..k]).session.tier != Write
    ensures var f, d := tr[k].sent, Summary(tr[..k]);
      (if f.id.ext then 0x18DA_0000 <= f.id.value <= 0x18DB_FFFF else 0x600 <= f.id.value <= 0x7FF)
      && !AmongFirst128(IdsOf(d.listened), f.id) && f.data != []
      && (0x30 <= f.data[0] <= 0x3F || (f.data[0] < 0x20 && AllowedAt(d.session.tier, f.data))
          || (0x20 <= f.data[0] <= 0x2F && exists j :: BeganAt(tr[..k], j, f.id, d.session.tier)))
  {
    hide AmongFirst128, TierNow, Recorded, Summary, Fitting, Due, AllowedAt, Passes, Governs;
    var f, d := tr[k].sent, Summary(tr[..k]);
    assert Promised(tr[..k], tr[k]);
    HistoryIsRecord(tr[..k]);
    RecordedFollowsLog(d.history, f.id);
    PassesExactly(d.history, f);
    if Continues(d.history, f) {
      var i :| 0 <= i < |d.history| && Governs(d.history, i, f.id) && Begins(d.history, i);
      GovernsFirst(d.history, i, f.id);
      var j := OfferedOnRecord(tr[..k], i);
      assert BeganAt(tr[..k], j, f.id, d.session.tier);
    }
  }

  lemma GovernsFirst(h: History, i: nat, id: CanId)
    requires i < |h| && Governs(h, i, id)
    ensures h[i].Offered? && h[i].frame.id == id && h[i].frame.data != [] && 0x10 <= h[i].frame.data[0] <= 0x1F
  {
  }

  /** What the guard's history holds as offered was offered on record. */
  lemma {:induction false} OfferedOnRecord(tr: seq<Event>, i: nat) returns (j: nat)
    requires i < |Summary(tr).history| && Summary(tr).history[i].Offered?
    ensures j < |tr| && tr[j] == Judged(Summary(tr).history[i].frame)
  {
    hide Next;
    var front, e := tr[..|tr| - 1], tr[|tr| - 1];
    HistoryGrows(Summary(front), front, e);
    if i < |Summary(front).history| {
      j := OfferedOnRecord(front, i);
    } else {
      j := |tr| - 1;
    }
  }

  lemma HistoryGrows(d: Digest, before: seq<Event>, e: Event)
    ensures var h := Added(d, before, e).history;
      d.history <= h && |h| <= |d.history| + 1
      && (|h| > |d.history| && h[|d.history|].Offered? ==> e == Judged(h[|d.history|].frame))
  {
  }

  /** tr[k] is where the tier in force was set, by a line that had just been typed on USB. */
  predicate WriteSetAt(tr: seq<Event>, k: nat) {
    0 < k < |tr| && tr[k] == TierChanged(Write) && TypedAt(tr[..k], k - 1, "AT#GUARDWRITE")
    && !Summary(tr[..k]).session.onTcp && forall j :: k < j < |tr| ==> !tr[j].TierChanged?
  }

  /** In a safe record the WRITE tier is in force only because AT#GUARDWRITE was typed and run, on USB,
      and no later event has changed the tier. */
  lemma {:induction false} WriteWasAsked(tr: seq<Event>) returns (k: nat)
    requires Safe(tr) && Summary(tr).session.tier == Write
    ensures WriteSetAt(tr, k)
  {
    hide Promised, Added, Safe, Spelled;
    k := 0;
    if tr == [] {
      StartsAtRead();
    } else {
      var front, e := tr[..|tr| - 1], tr[|tr| - 1];
      assert front + [e] == tr;
      SafeNext(front, e);
      TierNext(front, e);
      if e.TierChanged? {
        k := |tr| - 1;
        CommandWasTyped(front, k - 1, "AT#GUARDWRITE");
        assert tr[..k] == front == front[..k];
      } else {
        k := WriteWasAsked(front);
        assert tr[..k] == front[..k];
      }
    }
  }

  lemma StartsAtRead()
    ensures Summary([]).session.tier == Read
  {
  }

  lemma TierNext(front: seq<Event>, e: Event)
    requires Promised(front, e) && Added(Summary(front), front, e).session.tier == Write
    ensures if e.TierChanged? then
              e.tier == Write && Ends(front, Executed("AT#GUARDWRITE")) && !Summary(front).session.onTcp
            else Summary(front).session.tier == Write
  {
    hide Fitting, Permitted, Due, Summary;
    if e.TierChanged? { assert "AT#GUARD" + TierText(Write) == "AT#GUARDWRITE"; }
  }

  /** tr[j] is where the line was typed: what was entered spells it, and the session has not moved
      since. */
  predicate TypedAt(tr: seq<Event>, j: nat, line: string) {
    j < |tr| && tr[j] == Executed(line) && Spelled(Summary(tr[..j]).session.keys.entered, line)
    && forall i :: j < i < |tr| ==> !tr[i].Moved?
  }

  /** In a safe record, every line run in this session was typed in it. */
  lemma {:induction false} LinesWereTyped(tr: seq<Event>, line: string) returns (j: nat)
    requires Safe(tr) && line in Summary(tr).session.lines && line != ""
    ensures TypedAt(tr, j, line)
  {
    hide Promised, Spelled, Added;
    j := 0;
    if tr != [] {
      var front, e := tr[..|tr| - 1], tr[|tr| - 1];
      assert front + [e] == tr;
      SafeNext(front, e);
      LinesNext(front, e, line);
      if line in Summary(front).session.lines {
        j := LinesWereTyped(front, line);
        assert tr[..j] == front[..j] && tr[j] == front[j];
      } else {
        j := |tr| - 1;
        assert tr[..j] == front;
      }
    }
  }

  lemma LinesNext(front: seq<Event>, e: Event, line: string)
    requires Promised(front, e) && line in Added(Summary(front), front, e).session.lines && line != ""
    ensures !e.Moved?
    ensures line !in Summary(front).session.lines ==>
      e == Executed(line) && Spelled(Summary(front).session.keys.entered, line)
  {
    hide Fitting, Permitted, Summary, Input.LineOf;
  }

  /** In a safe record an AT command runs only as it is typed. */
  lemma CommandWasTyped(tr: seq<Event>, k: nat, line: string)
    requires Safe(tr) && k < |tr| && tr[k] == Executed(line) && IsAt(line)
    ensures TypedAt(tr[..k + 1], k, line)
  {
    hide Fitting, Permitted, Summary, Input.LineOf;
    assert Promised(tr[..k], tr[k]) && tr[..k + 1][..k] == tr[..k];
  }

  /** In a safe record, whatever line runs was typed in the session it runs in: an AT command now, a
      request now or, if a blank line repeats it, earlier. */
  lemma ExecutedWasTyped(tr: seq<Event>, k: nat) returns (j: nat)
    requires Safe(tr) && k < |tr| && tr[k].Executed? && tr[k].line != ""
    ensures TypedAt(tr[..k + 1], j, tr[k].line)
    ensures j != k ==> !IsAt(tr[k].line) && Spelled(Summary(tr[..k]).session.keys.entered, "")
  {
    hide Fitting, Permitted, Summary, Input.LineOf;
    assert Promised(tr[..k], tr[k]);
    var d, now := Summary(tr[..k]), tr[..k + 1];
    if Spelled(d.session.keys.entered, tr[k].line) {
      j := k;
      assert now[..k] == tr[..k];
    } else {
      SafeBefore(tr, k);
      j := LinesWereTyped(tr[..k], tr[k].line);
      assert now[..j] == tr[..k][..j];
    }
  }

  lemma SafeBefore(tr: seq<Event>, k: nat)
    requires Safe(tr) && k <= |tr|
    ensures Safe(tr[..k])
  {
    hide Promised;
    forall i | 0 <= i < k ensures tr[..k][..i] == tr[..i] && Promised(tr[..k][..i], tr[..k][i]) {
      assert Promised(tr[..i], tr[i]);
    }
  }
}
