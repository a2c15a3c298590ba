/** What one request can come to (lib/elm/src/bus.cpp, `converse`): the courses it can take, as each
    shows on record, and the outcome and the log that each gives. */
module Exchange {
  import opened CanTypes
  import opened Conversation
  import opened Record
  import WriteGuard

  datatype LbtVerdict = Verified | Silent | WrongRate | Fault | Disturbed

  /** What a listen window looks like on record for each verdict. */
  predicate LbtShows(w: seq<Event>, rate: Bitrate, v: LbtVerdict) {
    match v
    case Verified => FramesDecoded(w, rate)
    case Silent => NothingDecoded(w, rate) && NoErrors(w[|w| - 1].health)
    case WrongRate => NothingDecoded(w, rate) && !NoErrors(w[|w| - 1].health)
    case Fault => w == [Closed, Opened(rate, ListenOnly, ACCEPT_ALL, false)]
    case Disturbed => WindowInterrupted(w, rate)
  }

  datatype Outcome = Answered | NoData | SentOnly | Blocked | CanError | Stopped | BufferFull | UnableToConnect

  /** How the guard's verdict was reached: at once, on a link cleared before, or after a listen window,
      when the request is offered again. */
  datatype Clearance = AtOnce | AfterWindow(window: seq<Event>)

  /** What comes before the send: the verdict, and the frames left from before, thrown away. */
  datatype Approach = Approach(clearance: Clearance, thrown: seq<Event>)

  /** How a request went. `back` is whether the controller took the return to listen-only. */
  datatype Course =
    | NotPermitted(clearance: Clearance)
    | NotListening(window: seq<Event>)
    | RateWrong(window: seq<Event>)
    | WindowStopped(window: seq<Event>)
    | NotOpened(approach: Approach)
    | SendFailed(approach: Approach, onTcp: bool, back: bool)
    | NotAwaited(approach: Approach, onTcp: bool, back: bool)
    | Talked(approach: Approach, onTcp: bool, dialogue: seq<Event>, health: CanHealth, back: bool)

  function RequestEvent(ctx: Ctx, f: CanFrame, ok: bool, onTcp: bool): Event {
    SendTried(f, Request, Some(Normal), BitrateOf(ctx.p), ok, onTcp)
  }

  function BackToSilence(ctx: Ctx, back: bool): Event { Opened(BitrateOf(ctx.p), ListenOnly, ctx.want, back) }

  function ClearanceEvents(f: CanFrame, c: Clearance): seq<Event> {
    match c
    case AtOnce => [Judged(f)]
    case AfterWindow(w) => [Judged(f)] + w + [Judged(f)]
  }

  predicate ClearedAt(rate: Bitrate, c: Clearance) { c.AfterWindow? ==> IsWindow(c.window, rate) }

  /** Frames taken while listening, until there is none. */
  predicate ThrownAway(es: seq<Event>) {
    Ends(es, NoFrame) && forall e :: e in es ==> e == NoFrame || (e.Received? && e.mode == Some(ListenOnly))
  }

  function ApproachEvents(ctx: Ctx, f: CanFrame, a: Approach, ok: bool): seq<Event> {
    ClearanceEvents(f, a.clearance) + a.thrown + [Opened(BitrateOf(ctx.p), Normal, ctx.want, ok)]
  }

  predicate Approached(ctx: Ctx, a: Approach) { ClearedAt(BitrateOf(ctx.p), a.clearance) && ThrownAway(a.thrown) }

  predicate Awaited(ctx: Ctx) { ctx.s.responses && ctx.maxResponses != 0 }

  /** Every event of a course, in order. */
  function CourseEvents(ctx: Ctx, f: CanFrame, c: Course): seq<Event> {
    match c
    case NotPermitted(clearance) => ClearanceEvents(f, clearance)
    case NotListening(w) => [Judged(f)] + w
    case RateWrong(w) => [Judged(f)] + w
    case WindowStopped(w) => [Judged(f)] + w
    case NotOpened(a) => ApproachEvents(ctx, f, a, false)
    case SendFailed(a, onTcp, back) =>
      ApproachEvents(ctx, f, a, true) + [RequestEvent(ctx, f, false, onTcp)] + [BackToSilence(ctx, back)]
    case NotAwaited(a, onTcp, back) =>
      ApproachEvents(ctx, f, a, true) + [RequestEvent(ctx, f, true, onTcp)] + [BackToSilence(ctx, back)]
    case Talked(a, onTcp, dialogue, health, back) =>
      ApproachEvents(ctx, f, a, true) + [RequestEvent(ctx, f, true, onTcp)] + dialogue + [Health(health)]
      + [BackToSilence(ctx, back)]
  }

  /** The parts of a course are what they are called; `h` is the guard's history at its end. */
  ghost predicate CourseFits(ctx: Ctx, f: CanFrame, h: WriteGuard.History, c: Course) {
    match c
    case NotPermitted(clearance) => ClearedAt(BitrateOf(ctx.p), clearance) && !WriteGuard.Passes(h, f)
    case NotListening(w) => LbtShows(w, BitrateOf(ctx.p), Fault)
    case RateWrong(w) => LbtShows(w, BitrateOf(ctx.p), WrongRate)
    case WindowStopped(w) => LbtShows(w, BitrateOf(ctx.p), Disturbed)
    case NotOpened(a) => Approached(ctx, a)
    case SendFailed(a, _, _) => Approached(ctx, a)
    case NotAwaited(a, _, _) => Approached(ctx, a) && !Awaited(ctx)
    case Talked(a, _, dialogue, _, _) => Approached(ctx, a) && Awaited(ctx) && DialogueRun(ctx, dialogue).phase.Over?
  }

  /** From `before` to `after` the request `f` took this course, and nothing else happened. */
  ghost predicate Went(ctx: Ctx, f: CanFrame, before: seq<Event>, after: seq<Event>, c: Course) {
    after == before + CourseEvents(ctx, f, c) && CourseFits(ctx, f, Summary(after).history, c)
  }

  function LogOf(ctx: Ctx, c: Course): seq<CanFrame> {
    if c.Talked? then ClientOf(ctx, DialogueRun(ctx, c.dialogue)).log else []
  }

  function OutcomeAfter(how: Ended, overflow: bool, log: seq<CanFrame>): Outcome {
    if how == ByByte then Stopped
    else if how == ByFull || overflow then BufferFull
    else if log != [] then Answered else NoData
  }

  function HowEnded(d: Dialogue): Ended { if d.phase.Over? then d.phase.how else ByByte }

  function OutcomeOf(ctx: Ctx, c: Course): Outcome {
    match c
    case NotPermitted(_) => Blocked
    case NotListening(_) => CanError
    case RateWrong(_) => CanError
    case WindowStopped(_) => Stopped
    case NotOpened(_) => CanError
    case SendFailed(_, _, _) => CanError
    case NotAwaited(_, _, _) => SentOnly
    case Talked(_, _, dialogue, health, _) =>
      OutcomeAfter(HowEnded(DialogueRun(ctx, dialogue)), health.rxOverflow, LogOf(ctx, c))
  }

  // ---------- What every course keeps ----------

  /** The requests among some events. */
  function Requests(es: seq<Event>): seq<Event> {
    if es == [] then []
    else
      var e := es[|es| - 1];
      Requests(es[..|es| - 1]) + (if e.SendTried? && e.purpose == Request then [e] else [])
  }

  lemma {:induction false} RequestsJoin(a: seq<Event>, b: seq<Event>)
    ensures Requests(a + b) == Requests(a) + Requests(b)
    decreases |b|
  {
    if b == [] {
      assert a + b == a;
    } else {
      RequestsJoin(a, b[..|b| - 1]);
      assert (a + b)[..|a + b| - 1] == a + b[..|b| - 1];
    }
  }

  /** Nothing is sent, and the controller is opened at no other rate. */
  predicate Unsent(es: seq<Event>, rate: Bitrate) {
    forall e :: e in es ==> !e.SendTried? && (e.Opened? ==> e.rate == rate)
  }

  /** Every open and every send is at this rate. */
  predicate Tuned(es: seq<Event>, rate: Bitrate) {
    forall e :: e in es ==> (e.Opened? ==> e.rate == rate) && (e.SendTried? ==> e.sendRate == rate)
  }

  lemma {:induction false} NoSendsNoRequests(es: seq<Event>, rate: Bitrate)
    requires Unsent(es, rate)
    ensures Requests(es) == []
  {
    if es != [] { NoSendsNoRequests(es[..|es| - 1], rate); }
  }

  /** Listening opens nothing and sends nothing. */
  lemma {:induction false} ListeningIsUnsent(d: Deadline, es: seq<Event>)
    requires ListenRun(d, es).at != Astray
    ensures forall e :: e in es ==> !e.Opened? && !e.SendTried?
  {
    hide AwaitStep;
    if es != [] {
      var front, e := es[..|es| - 1], es[|es| - 1];
      ListeningBefore(d, ListenRun(d, front).at, e);
      ListeningIsUnsent(d, front);
    }
  }

  lemma ListeningBefore(d: Deadline, a: AwaitState, e: Event)
    requires AwaitStep(d, Some(ListenOnly), a, e) != Astray
    ensures a != Astray && !e.Opened? && !e.SendTried?
  {
  }

  lemma WindowIsUnsent(w: seq<Event>, rate: Bitrate, v: LbtVerdict)
    requires LbtShows(w, rate, v)
    ensures Unsent(w, rate)
  {
    if v != Fault {
      var n := if v == Silent || v == WrongRate then |w| - 1 else |w|;
      ListeningIsUnsent(After(w[2].now, LBT_WINDOW_MS), w[3..n]);
      forall e | e in w ensures !e.SendTried? && (e.Opened? ==> e.rate == rate) {
        var i :| 0 <= i < |w| && w[i] == e;
        if 3 <= i < n { assert w[3..n][i - 3] == e; }
      }
    }
  }

  lemma ClearanceIsUnsent(f: CanFrame, c: Clearance, rate: Bitrate)
    requires ClearedAt(rate, c)
    ensures Unsent(ClearanceEvents(f, c), rate)
  {
    hide FramesDecoded, NothingDecoded;
    if c.AfterWindow? { WindowIsUnsent(c.window, rate, if FramesDecoded(c.window, rate) then Verified else Silent); }
  }

  lemma ApproachIsUnsent(ctx: Ctx, f: CanFrame, a: Approach, ok: bool)
    requires Approached(ctx, a)
    ensures Unsent(ApproachEvents(ctx, f, a, ok), BitrateOf(ctx.p))
  {
    hide IsWindow;
    ClearanceIsUnsent(f, a.clearance, BitrateOf(ctx.p));
  }

  /** The answer loop sends no request, and all it sends is at the protocol's rate. */
  lemma {:induction false} DialogueAsksNothing(ctx: Ctx, es: seq<Event>)
    requires !DialogueRun(ctx, es).phase.Lost?
    ensures Requests(es) == [] && Tuned(es, BitrateOf(ctx.p))
  {
    hide DialogueStep;
    if es != [] {
      var front, e := es[..|es| - 1], es[|es| - 1];
      if DialogueRun(ctx, front).phase.Lost? { LostStays(ctx, DialogueRun(ctx, front), e); }
      DialogueAsksNothing(ctx, front);
      if e.SendTried? || e.Opened? { SendsReply(ctx, DialogueRun(ctx, front), e); }
    }
  }

  lemma SendsReply(ctx: Ctx, d: Dialogue, e: Event)
    requires (e.SendTried? || e.Opened?) && !DialogueStep(ctx, d, e).phase.Lost?
    ensures d.phase.Replying? && e.SendTried? && e.purpose == FlowReply && e.sendRate == BitrateOf(ctx.p)
  {
    hide Answering, AwaitStep, Settled, Arrived;
    if d.phase.Waiting? { WaitSendsNothing(ClientOf(ctx, d).deadline, d.phase.at, e); }
  }

  lemma WaitSendsNothing(deadline: Deadline, a: AwaitState, e: Event)
    requires e.SendTried? || e.Opened?
    ensures AwaitStep(deadline, Some(Normal), a, e) == Astray
  {
  }

  /** Main result: a request goes out exactly once, or not at all; which, its outcome says. An
      outcome with an answer, without one, or cut short by a full buffer means that it went out. */
  lemma RequestGoesOnce(ctx: Ctx, f: CanFrame, before: seq<Event>, after: seq<Event>, c: Course)
    requires Went(ctx, f, before, after, c)
    ensures Requests(after[|before|..])
      == match c
         case SendFailed(_, onTcp, _) => [RequestEvent(ctx, f, false, onTcp)]
         case NotAwaited(_, onTcp, _) => [RequestEvent(ctx, f, true, onTcp)]
         case Talked(_, onTcp, _, _, _) => [RequestEvent(ctx, f, true, onTcp)]
         case _ => []
    ensures var o := OutcomeOf(ctx, c);
      (o == Answered || o == NoData || o == BufferFull ==> c.Talked?) && (o == Blocked <==> c.NotPermitted?)
      && (o == SentOnly <==> c.NotAwaited?) && o != UnableToConnect
  {
    hide DialogueRun, LbtShows, Requests, Summary, WriteGuard.Passes, LogOf, ApproachEvents, Approached, ClearanceEvents;
    var es := CourseEvents(ctx, f, c);
    var rate := BitrateOf(ctx.p);
    assert after[|before|..] == es;
    match c
    case NotPermitted(clearance) => ClearanceIsUnsent(f, clearance, rate); NoSendsNoRequests(es, rate);
    case NotListening(w) => WindowIsUnsent(w, rate, Fault); NoSendsNoRequests(es, rate);
    case RateWrong(w) => WindowIsUnsent(w, rate, WrongRate); NoSendsNoRequests(es, rate);
    case WindowStopped(w) => WindowIsUnsent(w, rate, Disturbed); NoSendsNoRequests(es, rate);
    case NotOpened(a) => ApproachIsUnsent(ctx, f, a, false); NoSendsNoRequests(es, rate);
    case SendFailed(a, onTcp, back) => OneRequest(ctx, f, a, RequestEvent(ctx, f, false, onTcp), BackToSilence(ctx, back));
    case NotAwaited(a, onTcp, back) => OneRequest(ctx, f, a, RequestEvent(ctx, f, true, onTcp), BackToSilence(ctx, back));
    case Talked(a, onTcp, dialogue, health, back) =>
      var asked := ApproachEvents(ctx, f, a, true) + [RequestEvent(ctx, f, true, onTcp)];
      DialogueAsksNothing(ctx, dialogue);
      OneRequest(ctx, f, a, RequestEvent(ctx, f, true, onTcp), Health(health));
      NotARequest(asked, Health(health));
      RequestsJoin(asked, dialogue);
      NotARequest(asked + dialogue, Health(health));
      NotARequest(asked + dialogue + [Health(health)], BackToSilence(ctx, back));
  }

  lemma NotARequest(es: seq<Event>, e: Event)
    requires !e.SendTried?
    ensures Requests(es + [e]) == Requests(es)
  {
    assert (es + [e])[..|es|] == es;
  }

  lemma OneRequest(ctx: Ctx, f: CanFrame, a: Approach, e: Event, last: Event)
    requires Approached(ctx, a) && e.SendTried? && e.purpose == Request && !last.SendTried?
    ensures Requests(ApproachEvents(ctx, f, a, true) + [e] + [last]) == [e]
  {
    hide ApproachEvents, Approached;
    var ready := ApproachEvents(ctx, f, a, true);
    ApproachIsUnsent(ctx, f, a, true);
    NoSendsNoRequests(ready, BitrateOf(ctx.p));
    assert (ready + [e])[..|ready|] == ready;
    NotARequest(ready + [e], last);
  }

  /** Main result: whatever course a request takes, the controller is opened at its protocol's rate and
      at no other, and all that is sent, request and flow control, goes out at that rate: 500 kbit for
      protocols 6 and 7, 250 kbit for 8 and 9. */
  lemma GoesOutAtItsRate(ctx: Ctx, f: CanFrame, before: seq<Event>, after: seq<Event>, c: Course)
    requires Went(ctx, f, before, after, c)
    ensures ctx.p == Can11_500 || ctx.p == Can29_500 ==> Tuned(after[|before|..], K500)
    ensures ctx.p == Can11_250 || ctx.p == Can29_250 ==> Tuned(after[|before|..], K250)
  {
    hide DialogueRun, LbtShows, Summary, WriteGuard.Passes, ApproachEvents, Approached, ClearanceEvents, ClearedAt;
    var rate := BitrateOf(ctx.p);
    assert after[|before|..] == CourseEvents(ctx, f, c);
    match c
    case NotPermitted(clearance) => ClearanceIsUnsent(f, clearance, rate);
    case NotListening(w) => WindowIsUnsent(w, rate, Fault);
    case RateWrong(w) => WindowIsUnsent(w, rate, WrongRate);
    case WindowStopped(w) => WindowIsUnsent(w, rate, Disturbed);
    case NotOpened(a) => ApproachIsUnsent(ctx, f, a, false);
    case SendFailed(a, _, _) => ApproachIsUnsent(ctx, f, a, true);
    case NotAwaited(a, _, _) => ApproachIsUnsent(ctx, f, a, true);
    case Talked(a, _, dialogue, _, _) => ApproachIsUnsent(ctx, f, a, true); DialogueAsksNothing(ctx, dialogue);
  }

  // ---------- What the log of an exchange is ----------

  /** A frame worth keeping, byte by byte: its id gets in, and with CAF0 or headers it is any frame; else it is a
      single frame whose length fits, a first frame with a length, or a consecutive frame. */
  predicate Keeps(ctx: Ctx, f: CanFrame) {
    ctx.want.Accepts(f.id)
    && (!ctx.s.caf || ctx.s.headers
        || (f.data != [] && (1 <= f.data[0] <= 0x0F && f.data[0] < |f.data|))
        || (|f.data| >= 2 && 0x10 <= f.data[0] <= 0x1F)
        || (f.data != [] && 0x20 <= f.data[0] <= 0x2F))
  }

  /** The frames `03 7F xx 78`, with a single frame's worth of bytes. */
  predicate AsksForTime(f: CanFrame) { |f.data| >= 4 && f.data[0] == 3 && f.data[1] == 0x7F && f.data[3] == 0x78 }

  lemma KeptExactly(ctx: Ctx, f: CanFrame)
    ensures Logged(ctx, f) <==> Keeps(ctx, f)
    ensures Counts(ctx, f) <==> Keeps(ctx, f) && !AsksForTime(f)
  {
  }

  /** Those of the frames, in the order they arrived. */
  function Keepable(ctx: Ctx, fs: seq<CanFrame>): seq<CanFrame> {
    if fs == [] then []
    else Keepable(ctx, fs[..|fs| - 1]) + (if Keeps(ctx, fs[|fs| - 1]) then [fs[|fs| - 1]] else [])
  }

  function RealAnswers(ctx: Ctx, fs: seq<CanFrame>): nat {
    if fs == [] then 0
    else
      var f := fs[|fs| - 1];
      RealAnswers(ctx, fs[..|fs| - 1]) + (if Keeps(ctx, f) && !AsksForTime(f) then 1 else 0)
  }

  lemma {:induction false} KeptIsKeepable(ctx: Ctx, hs: seq<Heard>)
    ensures Kept(ctx, hs) == Keepable(ctx, FramesHeard(hs)) && AnswerCount(ctx, hs) == RealAnswers(ctx, FramesHeard(hs))
  {
    hide Logged, Counts, Keeps, AsksForTime;
    if hs != [] {
      KeptIsKeepable(ctx, hs[..|hs| - 1]);
      KeptExactly(ctx, hs[|hs| - 1].frame);
    }
  }

  /** Main result: the log of an exchange depends on nothing but the frames received in it: it is
      those the settings let through, in order, the first 600 of them. The wait ended by the count
      digit exactly if that many real answers had come, and on a full log exactly if one more frame
      came than it holds. */
  lemma LogIsWhatCame(ctx: Ctx, f: CanFrame, before: seq<Event>, after: seq<Event>, c: Course)
    requires Went(ctx, f, before, after, c) && c.Talked? && ctx.maxResponses <= 15
    ensures var came := Keepable(ctx, FramesIn(c.dialogue)); var how := DialogueRun(ctx, c.dialogue).phase.how;
      LogOf(ctx, c) == (if how == ByFull && came != [] then came[..|came| - 1] else came)
      && |LogOf(ctx, c)| <= 600 && (how == ByFull <==> |came| > 600)
      && (how == ByCount <==>
            how != ByFull && ctx.maxResponses > 0 && RealAnswers(ctx, FramesIn(c.dialogue)) >= ctx.maxResponses)
  {
    hide DialogueRun, Answering, StopsAtEnd, FramesHeard, FramesIn, GoneOut, Granted, FirstFrames, Sends, Keepable,
         RealAnswers, Kept, AnswerCount, LbtShows, Summary, Approached, CourseEvents, WriteGuard.Passes;
    DialogueIsRecord(ctx, c.dialogue);
    var d := DialogueRun(ctx, c.dialogue);
    LogIsFilter(ctx, d.start, d.hs);
    KeptIsKeepable(ctx, d.hs);
  }
}
