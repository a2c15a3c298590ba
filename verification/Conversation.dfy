/** The answer phase of `converse` (lib/elm/src/bus.cpp) as two machines: one that is fed the
    received frames and keeps the log, and one that is fed the record, event by event, and says
    which records the loop can leave. */
module Conversation {
  import opened CanTypes
  import opened Config
  import opened Record
  import opened Text

  const LOG_CAPACITY := 600

  /** The request's side conditions; `maxResponses` is the count digit, negative without one. */
  datatype Ctx = Ctx(s: Settings, p: Protocol, want: Acceptance, maxResponses: int)

  /** A frame `await` returned, the clock read after it, and whether our flow control went out. */
  datatype Heard = Heard(frame: CanFrame, now: uint32, answered: bool)

  datatype Ending = Listening | Counted | Full

  datatype Client = Client(log: seq<CanFrame>, counted: byte, owed: Table, deadline: Deadline, ending: Ending)

  function Begin(ctx: Ctx, now: uint32): Client {
    Client([], 0, [], After(now, FirstWaitMs(ctx.s)), Listening)
  }

  function Pushed(log: seq<CanFrame>, f: CanFrame): seq<CanFrame> {
    if |log| >= LOG_CAPACITY then log else log + [f]
  }

  /** What a frame that is not response-pending does to the counters of owed frames. */
  function Owing(ctx: Ctx, owed: Table, f: CanFrame, answered: bool): (r: Table)
    requires |owed| <= SLOTS
    ensures |r| <= SLOTS
  {
    if PciOf(f) == First && ctx.s.cfc then (if answered then Expect(owed, f) else owed)
    else if PciOf(f) == Consecutive then Text.Received(owed, f.id)
    else owed
  }

  function OnPending(c: Client, h: Heard): Client {
    if |c.log| >= LOG_CAPACITY then c.(ending := Full)
    else c.(log := c.log + [h.frame], deadline := After(h.now, PENDING_WAIT_MS))
  }

  function OnAnswer(ctx: Ctx, c: Client, h: Heard): Client
    requires |c.owed| <= SLOTS
  {
    var shown := ShownAsResponse(ctx.s, h.frame);
    if shown && |c.log| >= LOG_CAPACITY then c.(ending := Full)
    else
      var owed := Owing(ctx, c.owed, h.frame, h.answered);
      var c' := c.(log := if shown then c.log + [h.frame] else c.log, owed := owed,
                   counted := if shown then (c.counted + 1) % 256 else c.counted);
      if ctx.maxResponses > 0 && c'.counted >= ctx.maxResponses then c'.(ending := Counted)
      else c'.(deadline := After(h.now, if AnyOwed(owed) then FirstWaitMs(ctx.s) else NextWaitMs(ctx.s)))
  }

  function OnFrame(ctx: Ctx, c: Client, h: Heard): (r: Client)
    requires |c.owed| <= SLOTS
    ensures |r.owed| <= SLOTS
  {
    if c.ending != Listening || !ctx.want.Accepts(h.frame.id) then c
    else if IsResponsePending(h.frame) then OnPending(c, h)
    else OnAnswer(ctx, c, h)
  }

  function Answering(ctx: Ctx, start: uint32, hs: seq<Heard>): (c: Client)
    ensures |c.owed| <= SLOTS
  {
    if hs == [] then Begin(ctx, start)
    else OnFrame(ctx, Answering(ctx, start, hs[..|hs| - 1]), hs[|hs| - 1])
  }

  // ---------- What the log is ----------

  predicate Counts(ctx: Ctx, f: CanFrame) {
    ctx.want.Accepts(f.id) && !IsResponsePending(f) && ShownAsResponse(ctx.s, f)
  }

  predicate Logged(ctx: Ctx, f: CanFrame) {
    ctx.want.Accepts(f.id) && (IsResponsePending(f) || ShownAsResponse(ctx.s, f))
  }

  /** The accepted frames that are response-pending or shown, in arrival order. */
  function Kept(ctx: Ctx, hs: seq<Heard>): seq<CanFrame> {
    if hs == [] then []
    else Kept(ctx, hs[..|hs| - 1]) + (if Logged(ctx, hs[|hs| - 1].frame) then [hs[|hs| - 1].frame] else [])
  }

  /** How many of them are real answers, response-pending ones left out. */
  function AnswerCount(ctx: Ctx, hs: seq<Heard>): nat {
    if hs == [] then 0
    else AnswerCount(ctx, hs[..|hs| - 1]) + (if Counts(ctx, hs[|hs| - 1].frame) then 1 else 0)
  }

  /** The loop reads no frame after the one that ends it. */
  predicate StopsAtEnd(ctx: Ctx, start: uint32, hs: seq<Heard>) {
    hs != [] ==> Answering(ctx, start, hs[..|hs| - 1]).ending == Listening
  }

  /** The log is the kept frames, cut at 600; the digit stops the wait as soon as that many real
      answers are in, and never later. */
  predicate Filtered(ctx: Ctx, c: Client, kept: seq<CanFrame>, n: nat) {
    c.log == (if c.ending == Full && kept != [] then kept[..|kept| - 1] else kept)
    && |c.log| <= LOG_CAPACITY
    && (c.ending == Full <==> |kept| > LOG_CAPACITY)
    && (c.ending != Full ==> c.counted == n % 256)
    && (ctx.maxResponses > 0 && c.ending != Full ==> n <= ctx.maxResponses)
    && (c.ending == Counted <==> ctx.maxResponses > 0 && c.ending != Full && n >= ctx.maxResponses)
  }

  /** Main result: after any frames the log is exactly that filter of them. */
  lemma {:induction false} LogIsFilter(ctx: Ctx, start: uint32, hs: seq<Heard>)
    requires StopsAtEnd(ctx, start, hs) && ctx.maxResponses <= 15
    ensures Filtered(ctx, Answering(ctx, start, hs), Kept(ctx, hs), AnswerCount(ctx, hs))
    decreases |hs|
  {
    hide Filtered, Kept, AnswerCount, Answering, OnFrame;
    if hs == [] {
      NothingFiltered(ctx, start);
    } else {
      var front := hs[..|hs| - 1];
      if front != [] { ListeningBefore(ctx, start, front); }
      LogIsFilter(ctx, start, front);
      StepIsFilter(ctx, Answering(ctx, start, front), hs[|hs| - 1], Kept(ctx, front), AnswerCount(ctx, front));
      Unfold(ctx, start, hs);
    }
  }

  lemma NothingFiltered(ctx: Ctx, start: uint32)
    ensures Filtered(ctx, Answering(ctx, start, []), Kept(ctx, []), AnswerCount(ctx, []))
  {
  }

  lemma Unfold(ctx: Ctx, start: uint32, hs: seq<Heard>)
    requires hs != []
    ensures var front, h := hs[..|hs| - 1], hs[|hs| - 1];
      Answering(ctx, start, hs) == OnFrame(ctx, Answering(ctx, start, front), h)
      && Kept(ctx, hs) == Kept(ctx, front) + (if Logged(ctx, h.frame) then [h.frame] else [])
      && AnswerCount(ctx, hs) == AnswerCount(ctx, front) + (if Counts(ctx, h.frame) then 1 else 0)
  {
  }

  lemma ListeningBefore(ctx: Ctx, start: uint32, hs: seq<Heard>)
    requires hs != [] && Answering(ctx, start, hs).ending == Listening
    ensures Answering(ctx, start, hs[..|hs| - 1]).ending == Listening
  {
  }

  lemma StepIsFilter(ctx: Ctx, c: Client, h: Heard, kept: seq<CanFrame>, n: nat)
    requires c.ending == Listening && |c.owed| <= SLOTS && ctx.maxResponses <= 15
    requires Filtered(ctx, c, kept, n)
    ensures Filtered(ctx, OnFrame(ctx, c, h), kept + (if Logged(ctx, h.frame) then [h.frame] else []),
                     n + (if Counts(ctx, h.frame) then 1 else 0))
  {
    hide Owing, FirstWaitMs, NextWaitMs, ShownAsResponse, IsResponsePending;
    assert kept + [] == kept;
  }

  // ---------- The same, event by event ----------

  datatype Ended = ByByte | ByTime | ByCount | ByFull

  /** Where the loop stands: about to read its first clock; waiting; about to offer the guard the
      flow control for `first`, or to send it; about to read the clock from which the next deadline
      is set; over; or somewhere the loop never is. */
  datatype Phase =
    | Starting
    | Waiting(at: AwaitState)
    | Offering(first: CanFrame)
    | Replying(first: CanFrame)
    | Stamping(frame: CanFrame, answered: bool)
    | Over(how: Ended)
    | Lost

  datatype Dialogue = Dialogue(start: uint32, hs: seq<Heard>, phase: Phase)

  const NOT_STARTED := Dialogue(0, [], Starting)

  function ClientOf(ctx: Ctx, d: Dialogue): (c: Client)
    ensures |c.owed| <= SLOTS
  {
    Answering(ctx, d.start, d.hs)
  }

  predicate FirstToAnswer(ctx: Ctx, f: CanFrame) {
    ctx.want.Accepts(f.id) && !IsResponsePending(f) && PciOf(f) == First && ctx.s.cfc
  }

  predicate NeedsReply(ctx: Ctx, c: Client, f: CanFrame) {
    FirstToAnswer(ctx, f) && !(ShownAsResponse(ctx.s, f) && |c.log| >= LOG_CAPACITY)
  }

  /** Our flow control as it goes out. */
  function FlowEvent(ctx: Ctx, first: CanFrame, ok: bool, onTcp: bool): Event {
    SendTried(FlowControlFrame(ctx.s, ctx.p, first), FlowReply, Some(Normal), BitrateOf(ctx.p), ok, onTcp)
  }

  /** The frame is dealt with, up to the clock; it may end the loop. */
  function Settled(ctx: Ctx, d: Dialogue, f: CanFrame, answered: bool): Dialogue {
    var h := Heard(f, 0, answered);
    match OnFrame(ctx, ClientOf(ctx, d), h).ending
    case Listening => d.(phase := Stamping(f, answered))
    case Counted => d.(hs := d.hs + [h], phase := Over(ByCount))
    case Full => d.(hs := d.hs + [h], phase := Over(ByFull))
  }

  function Arrived(ctx: Ctx, d: Dialogue, f: CanFrame): Dialogue {
    if !ctx.want.Accepts(f.id) then d.(hs := d.hs + [Heard(f, 0, false)], phase := Waiting(Look))
    else if NeedsReply(ctx, ClientOf(ctx, d), f) then d.(phase := Offering(f))
    else Settled(ctx, d, f, false)
  }

  function Waited(ctx: Ctx, d: Dialogue, a: AwaitState): Dialogue {
    match a
    case Astray => d.(phase := Lost)
    case Woken(Interrupted) => d.(phase := Over(ByByte))
    case Woken(TimedOut) => d.(phase := Over(ByTime))
    case Woken(GotFrame(f)) => Arrived(ctx, d, f)
    case _ => d.(phase := Waiting(a))
  }

  function DialogueStep(ctx: Ctx, d: Dialogue, e: Event): Dialogue {
    match d.phase
    case Starting => if e.Clock? then Dialogue(e.now, [], Waiting(Look)) else d.(phase := Lost)
    case Waiting(a) => Waited(ctx, d, AwaitStep(ClientOf(ctx, d).deadline, Some(Normal), a, e))
    case Offering(f) =>
      d.(phase := if e == Judged(FlowControlFrame(ctx.s, ctx.p, f)) then Replying(f) else Lost)
    case Replying(f) =>
      if e == Withheld then Settled(ctx, d, f, false)
      else if e.SendTried? && e == FlowEvent(ctx, f, e.sentOk, e.onTcp) then Settled(ctx, d, f, e.sentOk)
      else d.(phase := Lost)
    case Stamping(f, answered) =>
      if e.Clock? then d.(hs := d.hs + [Heard(f, e.now, answered)], phase := Waiting(Look)) else d.(phase := Lost)
    case Over(_) => d.(phase := Lost)
    case Lost => d
  }

  function DialogueFrom(ctx: Ctx, d: Dialogue, es: seq<Event>): Dialogue {
    if es == [] then d else DialogueStep(ctx, DialogueFrom(ctx, d, es[..|es| - 1]), es[|es| - 1])
  }

  function DialogueRun(ctx: Ctx, es: seq<Event>): Dialogue { DialogueFrom(ctx, NOT_STARTED, es) }

  lemma DialogueNext(ctx: Ctx, d: Dialogue, es: seq<Event>, e: Event)
    ensures DialogueFrom(ctx, d, es + [e]) == DialogueStep(ctx, DialogueFrom(ctx, d, es), e)
  {
    assert (es + [e])[..|es|] == es;
  }

  lemma {:induction false} DialogueJoins(ctx: Ctx, d: Dialogue, a: seq<Event>, b: seq<Event>)
    ensures DialogueFrom(ctx, d, a + b) == DialogueFrom(ctx, DialogueFrom(ctx, d, a), b)
    decreases |b|
  {
    hide DialogueStep;
    if b == [] {
      assert a + b == a;
    } else {
      DialogueJoins(ctx, d, a, b[..|b| - 1]);
      assert (a + b)[..|a + b| - 1] == a + b[..|b| - 1];
    }
  }

  /** A complete wait takes the loop from one look to what it woke up to. */
  lemma {:induction false} DialogueWaits(ctx: Ctx, d: Dialogue, wait: seq<Event>)
    requires d.phase == Waiting(Look) && AwaitRun(ClientOf(ctx, d).deadline, Some(Normal), wait) != Astray
    ensures var a := AwaitRun(ClientOf(ctx, d).deadline, Some(Normal), wait);
      DialogueFrom(ctx, d, wait) == if wait == [] then d else Waited(ctx, d, a)
    decreases |wait|
  {
    hide AwaitStep, Answering, Arrived;
    if wait != [] {
      var front := wait[..|wait| - 1];
      NotAstrayBefore(ClientOf(ctx, d).deadline, Some(Normal), wait);
      DialogueWaits(ctx, d, front);
      var a := AwaitRun(ClientOf(ctx, d).deadline, Some(Normal), front);
      StillWaiting(ctx, d, a);
      assert DialogueFrom(ctx, d, front) == d.(phase := Waiting(a));
      PhaseForgotten(ctx, d, Waiting(a), AwaitRun(ClientOf(ctx, d).deadline, Some(Normal), wait));
    }
  }

  lemma StillWaiting(ctx: Ctx, d: Dialogue, a: AwaitState)
    requires !a.Woken? && a != Astray
    ensures Waited(ctx, d, a) == d.(phase := Waiting(a))
  {
  }

  lemma PhaseForgotten(ctx: Ctx, d: Dialogue, phase: Phase, a: AwaitState)
    ensures Waited(ctx, d.(phase := phase), a) == Waited(ctx, d, a)
  {
    hide OnFrame, Answering;
  }

  lemma HeardMore(ctx: Ctx, start: uint32, hs: seq<Heard>, h: Heard)
    ensures Answering(ctx, start, hs + [h]) == OnFrame(ctx, Answering(ctx, start, hs), h)
    ensures Answering(ctx, start, hs).ending == Listening ==> StopsAtEnd(ctx, start, hs + [h])
  {
    assert (hs + [h])[..|hs|] == hs;
  }

  // ---------- What a record of the loop says ----------

  function FramesHeard(hs: seq<Heard>): seq<CanFrame> {
    if hs == [] then [] else FramesHeard(hs[..|hs| - 1]) + [hs[|hs| - 1].frame]
  }

  /** The flow control of the frames that were answered. */
  function Granted(ctx: Ctx, hs: seq<Heard>): seq<CanFrame> {
    if hs == [] then []
    else
      var h := hs[|hs| - 1];
      Granted(ctx, hs[..|hs| - 1]) + (if h.answered then [FlowControlFrame(ctx.s, ctx.p, h.frame)] else [])
  }

  /** How many first frames there were to answer. */
  function FirstFrames(ctx: Ctx, hs: seq<Heard>): nat {
    if hs == [] then 0
    else FirstFrames(ctx, hs[..|hs| - 1]) + (if FirstToAnswer(ctx, hs[|hs| - 1].frame) then 1 else 0)
  }

  /** The frames awaited as answers. */
  function FramesIn(es: seq<Event>): seq<CanFrame> {
    if es == [] then []
    else
      var e := es[|es| - 1];
      FramesIn(es[..|es| - 1]) + (if e.Received? && e.mode == Some(Normal) then [e.frame] else [])
  }

  /** The frames that went out. */
  function GoneOut(es: seq<Event>): seq<CanFrame> {
    if es == [] then []
    else
      var e := es[|es| - 1];
      GoneOut(es[..|es| - 1]) + (if e.SendTried? && e.sentOk then [e.sent] else [])
  }

  /** The frame that is being dealt with, and whether its flow control is out. */
  function InHand(d: Dialogue): seq<Heard> {
    match d.phase
    case Offering(f) => [Heard(f, 0, false)]
    case Replying(f) => [Heard(f, 0, false)]
    case Stamping(f, answered) => [Heard(f, 0, answered)]
    case _ => []
  }

  /** The phase agrees with the machine that keeps the log. */
  predicate PhaseFits(ctx: Ctx, es: seq<Event>, d: Dialogue) {
    var c := ClientOf(ctx, d);
    StopsAtEnd(ctx, d.start, d.hs)
    && match d.phase
       case Starting => d == NOT_STARTED
       case Waiting(a) => c.ending == Listening && !a.Woken? && a != Astray
       case Offering(f) => c.ending == Listening && NeedsReply(ctx, c, f)
       case Replying(f) => c.ending == Listening && NeedsReply(ctx, c, f)
       case Stamping(f, answered) =>
         c.ending == Listening && OnFrame(ctx, c, Heard(f, 0, answered)).ending == Listening && ctx.want.Accepts(f.id)
       case Over(how) =>
         c.ending == (match how case ByCount => Counted case ByFull => Full case _ => Listening)
         && (how == ByTime ==> es != [] && es[|es| - 1].Clock? && c.deadline.Passed(es[|es| - 1].now))
       case Lost => true
  }

  /** Everything on record was heard, answered and sent as the state says. */
  predicate OnRecord(ctx: Ctx, es: seq<Event>, d: Dialogue) {
    FramesIn(es) == FramesHeard(d.hs + InHand(d)) && GoneOut(es) == Granted(ctx, d.hs + InHand(d))
    && |Sends(es)| <= FirstFrames(ctx, if d.phase.Stamping? then d.hs + InHand(d) else d.hs)
  }

  lemma {:induction false} PhaseFollows(ctx: Ctx, es: seq<Event>)
    ensures PhaseFits(ctx, es, DialogueRun(ctx, es))
  {
    hide PhaseFits, DialogueStep;
    if es == [] {
      NothingSaid(ctx);
    } else {
      PhaseFollows(ctx, es[..|es| - 1]);
      PhaseStep(ctx, es[..|es| - 1], DialogueRun(ctx, es[..|es| - 1]), es[|es| - 1]);
      assert es[..|es| - 1] + [es[|es| - 1]] == es;
    }
  }

  lemma NothingSaid(ctx: Ctx)
    ensures PhaseFits(ctx, [], NOT_STARTED) && OnRecord(ctx, [], NOT_STARTED)
  {
  }

  lemma PhaseStep(ctx: Ctx, es: seq<Event>, d: Dialogue, e: Event)
    requires PhaseFits(ctx, es, d)
    ensures PhaseFits(ctx, es + [e], DialogueStep(ctx, d, e))
  {
    hide PhaseFits, Settled, Arrived, Waited, OnFrame, AwaitStep, Answering, StopsAtEnd;
    PhaseParts(ctx, es, d);
    match d.phase
    case Starting => StartFits(ctx, es, e);
    case Waiting(a) => WaitFits(ctx, es, d, e);
    case Offering(f) => OfferFits(ctx, es, d, e);
    case Replying(f) =>
      SettledFits(ctx, es, d, e, f, e.SendTried? && e.sentOk);
      LostFits(ctx, es + [e], d);
    case Stamping(f, answered) => StampFits(ctx, es, d, e);
    case Over(_) => LostFits(ctx, es + [e], d);
    case Lost => LostFits(ctx, es + [e], d);
  }

  lemma PhaseParts(ctx: Ctx, es: seq<Event>, d: Dialogue)
    requires PhaseFits(ctx, es, d)
    ensures StopsAtEnd(ctx, d.start, d.hs) && (d.phase.Starting? ==> d == NOT_STARTED)
    ensures d.phase.Replying? ==> ClientOf(ctx, d).ending == Listening && ctx.want.Accepts(d.phase.first.id)
    ensures d.phase.Lost? ==> d.(phase := Lost) == d
  {
  }

  lemma LostFits(ctx: Ctx, es: seq<Event>, d: Dialogue)
    requires StopsAtEnd(ctx, d.start, d.hs)
    ensures PhaseFits(ctx, es, d.(phase := Lost))
  {
  }

  lemma StartFits(ctx: Ctx, es: seq<Event>, e: Event)
    ensures PhaseFits(ctx, es + [e], DialogueStep(ctx, NOT_STARTED, e))
  {
  }

  lemma OfferFits(ctx: Ctx, es: seq<Event>, d: Dialogue, e: Event)
    requires d.phase.Offering? && PhaseFits(ctx, es, d)
    ensures PhaseFits(ctx, es + [e], DialogueStep(ctx, d, e))
  {
    hide OnFrame, Answering, NeedsReply;
  }

  lemma StampFits(ctx: Ctx, es: seq<Event>, d: Dialogue, e: Event)
    requires d.phase.Stamping? && PhaseFits(ctx, es, d)
    ensures PhaseFits(ctx, es + [e], DialogueStep(ctx, d, e))
  {
    hide OnFrame, Answering, StopsAtEnd, PhaseFits;
    StampParts(ctx, es, d);
    if e.Clock? {
      var h := Heard(d.phase.frame, e.now, d.phase.answered);
      HeardMore(ctx, d.start, d.hs, h);
      EndingIsTimeless(ctx, ClientOf(ctx, d), d.phase.frame, d.phase.answered, e.now);
      KeptFits(ctx, es + [e], d.(hs := d.hs + [h]), Waiting(Look));
    } else {
      LostFits(ctx, es + [e], d);
    }
  }

  lemma StampParts(ctx: Ctx, es: seq<Event>, d: Dialogue)
    requires d.phase.Stamping? && PhaseFits(ctx, es, d)
    ensures StopsAtEnd(ctx, d.start, d.hs) && ClientOf(ctx, d).ending == Listening
    ensures OnFrame(ctx, ClientOf(ctx, d), Heard(d.phase.frame, 0, d.phase.answered)).ending == Listening
  {
  }

  /** When a frame was stamped does not decide whether it ends the wait. */
  lemma EndingIsTimeless(ctx: Ctx, c: Client, f: CanFrame, answered: bool, now: uint32)
    requires |c.owed| <= SLOTS
    ensures OnFrame(ctx, c, Heard(f, now, answered)).ending == OnFrame(ctx, c, Heard(f, 0, answered)).ending
  {
    hide Owing, ShownAsResponse, IsResponsePending, AnyOwed;
  }

  lemma SettledFits(ctx: Ctx, es: seq<Event>, d: Dialogue, e: Event, f: CanFrame, answered: bool)
    requires StopsAtEnd(ctx, d.start, d.hs) && ClientOf(ctx, d).ending == Listening && ctx.want.Accepts(f.id)
    ensures PhaseFits(ctx, es + [e], Settled(ctx, d, f, answered))
  {
    hide OnFrame, Answering, AwaitStep;
    HeardMore(ctx, d.start, d.hs, Heard(f, 0, answered));
  }

  lemma WaitFits(ctx: Ctx, es: seq<Event>, d: Dialogue, e: Event)
    requires d.phase.Waiting? && PhaseFits(ctx, es, d)
    ensures PhaseFits(ctx, es + [e], DialogueStep(ctx, d, e))
  {
    hide OnFrame, Answering, AwaitStep, Settled, NeedsReply, PhaseFits;
    var a := AwaitStep(ClientOf(ctx, d).deadline, Some(Normal), d.phase.at, e);
    WaitParts(ctx, es, d);
    match a
    case Woken(GotFrame(f)) =>
      if !ctx.want.Accepts(f.id) {
        UnacceptedFits(ctx, es + [e], d, f);
      } else if NeedsReply(ctx, ClientOf(ctx, d), f) {
        KeptFits(ctx, es + [e], d, Offering(f));
      } else {
        SettledFits(ctx, es, d, e, f, false);
      }
    case Woken(Interrupted) => KeptFits(ctx, es + [e], d, Over(ByByte));
    case Woken(TimedOut) =>
      TimeOutClock(ClientOf(ctx, d).deadline, Some(Normal), d.phase.at, e);
      KeptFits(ctx, es + [e], d, Over(ByTime));
    case Astray => KeptFits(ctx, es + [e], d, Lost);
    case Look => KeptFits(ctx, es + [e], d, Waiting(a));
    case Poll => KeptFits(ctx, es + [e], d, Waiting(a));
    case Time => KeptFits(ctx, es + [e], d, Waiting(a));
    case RestBegins => KeptFits(ctx, es + [e], d, Waiting(a));
    case Rest(_) => KeptFits(ctx, es + [e], d, Waiting(a));
    case RestTime(_) => KeptFits(ctx, es + [e], d, Waiting(a));
  }

  lemma WaitParts(ctx: Ctx, es: seq<Event>, d: Dialogue)
    requires d.phase.Waiting? && PhaseFits(ctx, es, d)
    ensures StopsAtEnd(ctx, d.start, d.hs) && ClientOf(ctx, d).ending == Listening && !d.phase.at.Woken?
  {
  }

  lemma TimeOutClock(deadline: Deadline, mode: Option<CanMode>, a: AwaitState, e: Event)
    requires AwaitStep(deadline, mode, a, e) == Woken(TimedOut)
    ensures e.Clock? && deadline.Passed(e.now)
  {
  }

  lemma KeptFits(ctx: Ctx, es: seq<Event>, d: Dialogue, phase: Phase)
    requires StopsAtEnd(ctx, d.start, d.hs) && ClientOf(ctx, d).ending == Listening
    requires match phase
             case Waiting(a) => !a.Woken? && a != Astray
             case Offering(f) => NeedsReply(ctx, ClientOf(ctx, d), f)
             case Over(how) =>
               how == ByByte
               || (how == ByTime && es != [] && es[|es| - 1].Clock? && ClientOf(ctx, d).deadline.Passed(es[|es| - 1].now))
             case Lost => true
             case _ => false
    ensures PhaseFits(ctx, es, d.(phase := phase))
  {
    hide OnFrame, Answering, NeedsReply, Deadline.Passed;
  }

  lemma UnacceptedFits(ctx: Ctx, es: seq<Event>, d: Dialogue, f: CanFrame)
    requires StopsAtEnd(ctx, d.start, d.hs) && ClientOf(ctx, d).ending == Listening && !ctx.want.Accepts(f.id)
    ensures PhaseFits(ctx, es, d.(hs := d.hs + [Heard(f, 0, false)], phase := Waiting(Look)))
  {
    hide Answering;
    HeardMore(ctx, d.start, d.hs, Heard(f, 0, false));
  }

  lemma OneMoreHeard(ctx: Ctx, hs: seq<Heard>, h: Heard)
    ensures FramesHeard(hs + [h]) == FramesHeard(hs) + [h.frame]
    ensures Granted(ctx, hs + [h])
      == Granted(ctx, hs) + (if h.answered then [FlowControlFrame(ctx.s, ctx.p, h.frame)] else [])
    ensures FirstFrames(ctx, hs + [h]) == FirstFrames(ctx, hs) + (if FirstToAnswer(ctx, h.frame) then 1 else 0)
  {
    assert (hs + [h])[..|hs|] == hs;
  }

  lemma OneMoreEvent(es: seq<Event>, e: Event)
    ensures FramesIn(es + [e]) == FramesIn(es) + (if e.Received? && e.mode == Some(Normal) then [e.frame] else [])
    ensures GoneOut(es + [e]) == GoneOut(es) + (if e.SendTried? && e.sentOk then [e.sent] else [])
    ensures Sends(es + [e]) == Sends(es) + (if e.SendTried? then [e] else [])
  {
    assert (es + [e])[..|es|] == es;
  }

  lemma FrameAwaited(deadline: Deadline, mode: Option<CanMode>, a: AwaitState, e: Event)
    requires !a.Woken? && AwaitStep(deadline, mode, a, e) != Astray
    ensures !e.SendTried?
    ensures if e.Received? then e.mode == mode && AwaitStep(deadline, mode, a, e) == Woken(GotFrame(e.frame))
            else !(AwaitStep(deadline, mode, a, e).Woken? && AwaitStep(deadline, mode, a, e).wake.GotFrame?)
  {
  }

  lemma RecordStep(ctx: Ctx, es: seq<Event>, d: Dialogue, e: Event)
    requires PhaseFits(ctx, es, d) && OnRecord(ctx, es, d) && !DialogueStep(ctx, d, e).phase.Lost?
    ensures OnRecord(ctx, es + [e], DialogueStep(ctx, d, e))
  {
    hide OnFrame, Answering, AwaitStep, NeedsReply, StopsAtEnd, FlowControlFrame, IsResponsePending, FirstToAnswer;
    hide FramesHeard, Granted, FirstFrames, FramesIn, GoneOut, Sends;
    OneMoreEvent(es, e);
    var d' := DialogueStep(ctx, d, e);
    assert d.hs + [] == d.hs && d'.hs + [] == d'.hs;
    match d.phase
    case Starting =>
    case Waiting(a) =>
      FrameAwaited(ClientOf(ctx, d).deadline, Some(Normal), a, e);
      if e.Received? { OneMoreHeard(ctx, d.hs, Heard(e.frame, 0, false)); }
    case Offering(f) =>
    case Replying(f) =>
      OneMoreHeard(ctx, d.hs, Heard(f, 0, false));
      OneMoreHeard(ctx, d.hs, Heard(f, 0, true));
      ReplyIsFirst(ctx, ClientOf(ctx, d), f);
    case Stamping(f, answered) =>
      OneMoreHeard(ctx, d.hs, Heard(f, 0, answered));
      OneMoreHeard(ctx, d.hs, Heard(f, if e.Clock? then e.now else 0, answered));
    case Over(_) =>
    case Lost =>
  }

  lemma ReplyIsFirst(ctx: Ctx, c: Client, f: CanFrame)
    ensures NeedsReply(ctx, c, f) ==> FirstToAnswer(ctx, f)
  {
  }

  lemma {:induction false} RecordFollows(ctx: Ctx, es: seq<Event>)
    requires !DialogueRun(ctx, es).phase.Lost?
    ensures OnRecord(ctx, es, DialogueRun(ctx, es))
  {
    hide PhaseFits, OnRecord, DialogueStep;
    if es == [] {
      NothingSaid(ctx);
    } else {
      var front := es[..|es| - 1];
      if DialogueRun(ctx, front).phase.Lost? { LostStays(ctx, DialogueRun(ctx, front), es[|es| - 1]); }
      RecordFollows(ctx, front);
      PhaseFollows(ctx, front);
      RecordStep(ctx, front, DialogueRun(ctx, front), es[|es| - 1]);
      assert front + [es[|es| - 1]] == es;
    }
  }

  lemma LostStays(ctx: Ctx, d: Dialogue, e: Event)
    requires d.phase.Lost?
    ensures DialogueStep(ctx, d, e).phase.Lost?
  {
  }

  /** Main result: whatever record the loop leaves, the frames it heard are the frames that were
      received, its first frames were answered exactly where our flow control went out, once each
      at most, and nothing else was sent; and it ended the way the frames say. */
  lemma DialogueIsRecord(ctx: Ctx, es: seq<Event>)
    requires DialogueRun(ctx, es).phase.Over?
    ensures var d := DialogueRun(ctx, es); var c := ClientOf(ctx, d);
      StopsAtEnd(ctx, d.start, d.hs) && FramesIn(es) == FramesHeard(d.hs) && GoneOut(es) == Granted(ctx, d.hs)
      && |Sends(es)| <= FirstFrames(ctx, d.hs)
      && (d.phase.how == ByCount <==> c.ending == Counted) && (d.phase.how == ByFull <==> c.ending == Full)
      && (d.phase.how == ByTime ==> es[|es| - 1].Clock? && c.deadline.Passed(es[|es| - 1].now))
  {
    hide Answering, StopsAtEnd, DialogueStep, DialogueRun, FramesHeard, Granted, FirstFrames, FramesIn, GoneOut, Sends;
    PhaseFollows(ctx, es);
    RecordFollows(ctx, es);
    var d := DialogueRun(ctx, es);
    assert d.hs + InHand(d) == d.hs;
  }

  // ---------- The loop body, from a frame to the next wait ----------

  /** The loop once a frame has been dealt with. */
  function AfterFrame(d: Dialogue, h: Heard, ending: Ending): Dialogue {
    Dialogue(d.start, d.hs + [h],
             match ending case Listening => Waiting(Look) case Counted => Over(ByCount) case Full => Over(ByFull))
  }

  lemma Unaccepted(ctx: Ctx, d: Dialogue, f: CanFrame)
    requires !ctx.want.Accepts(f.id)
    ensures var h := Heard(f, 0, false);
      DialogueFrom(ctx, Arrived(ctx, d, f), []) == AfterFrame(d, h, Listening) && OnFrame(ctx, ClientOf(ctx, d), h) == ClientOf(ctx, d)
  {
  }

  lemma Unreplied(ctx: Ctx, d: Dialogue, f: CanFrame)
    requires ctx.want.Accepts(f.id) && !NeedsReply(ctx, ClientOf(ctx, d), f)
    ensures DialogueFrom(ctx, Arrived(ctx, d, f), []) == Settled(ctx, d, f, false)
  {
    hide OnFrame, Answering, NeedsReply;
  }

  lemma Replied(ctx: Ctx, d: Dialogue, f: CanFrame, passes: bool, ok: bool, onTcp: bool)
    requires NeedsReply(ctx, ClientOf(ctx, d), f) && (ok ==> passes)
    ensures var reply := if passes then FlowEvent(ctx, f, ok, onTcp) else Withheld;
      DialogueFrom(ctx, Arrived(ctx, d, f), [Judged(FlowControlFrame(ctx.s, ctx.p, f)), reply]) == Settled(ctx, d, f, ok)
  {
    hide OnFrame, Answering, FlowControlFrame, ShownAsResponse, IsResponsePending;
    var offer := Judged(FlowControlFrame(ctx.s, ctx.p, f));
    var reply := if passes then FlowEvent(ctx, f, ok, onTcp) else Withheld;
    var a := Arrived(ctx, d, f);
    assert a == d.(phase := Offering(f));
    DialogueNext(ctx, a, [], offer);
    assert [] + [offer] == [offer] && [offer] + [reply] == [offer, reply];
    DialogueNext(ctx, a, [offer], reply);
    SettledForgets(ctx, d, Replying(f), f, ok);
  }

  lemma SettledForgets(ctx: Ctx, d: Dialogue, phase: Phase, f: CanFrame, answered: bool)
    ensures Settled(ctx, d.(phase := phase), f, answered) == Settled(ctx, d, f, answered)
  {
    hide OnFrame, Answering;
  }

  /** A frame that does not end the wait is followed by a clock reading. */
  lemma Stamped(ctx: Ctx, d: Dialogue, f: CanFrame, more: seq<Event>, answered: bool, now: uint32)
    requires DialogueFrom(ctx, Arrived(ctx, d, f), more) == Settled(ctx, d, f, answered)
    requires OnFrame(ctx, ClientOf(ctx, d), Heard(f, 0, answered)).ending == Listening
    ensures DialogueFrom(ctx, Arrived(ctx, d, f), more + [Clock(now)]) == AfterFrame(d, Heard(f, now, answered), Listening)
  {
    hide OnFrame, Answering, Arrived, DialogueFrom;
    DialogueNext(ctx, Arrived(ctx, d, f), more, Clock(now));
  }

  lemma NotStamped(ctx: Ctx, d: Dialogue, f: CanFrame, answered: bool)
    requires OnFrame(ctx, ClientOf(ctx, d), Heard(f, 0, answered)).ending != Listening
    ensures var h := Heard(f, 0, answered); Settled(ctx, d, f, answered) == AfterFrame(d, h, OnFrame(ctx, ClientOf(ctx, d), h).ending)
  {
    hide OnFrame, Answering;
  }

  /** One round of the loop: a wait that ended with a frame, and what was done about it. */
  lemma RoundJoins(ctx: Ctx, seg: seq<Event>, wait: seq<Event>, more: seq<Event>, f: CanFrame, h: Heard, ending: Ending)
    requires var d := DialogueRun(ctx, seg);
      d.phase == Waiting(Look) && AwaitRun(ClientOf(ctx, d).deadline, Some(Normal), wait) == Woken(GotFrame(f))
      && DialogueFrom(ctx, Arrived(ctx, d, f), more) == AfterFrame(d, h, ending)
    ensures var d := DialogueRun(ctx, seg); DialogueRun(ctx, seg + wait + more) == AfterFrame(d, h, ending)
    ensures ClientOf(ctx, DialogueRun(ctx, seg + wait + more)) == OnFrame(ctx, ClientOf(ctx, DialogueRun(ctx, seg)), h)
  {
    hide OnFrame, Answering, Arrived, DialogueFrom, AwaitRun;
    var d := DialogueRun(ctx, seg);
    if wait == [] { NothingWoken(ClientOf(ctx, d).deadline); }
    DialogueWaits(ctx, d, wait);
    DialogueJoins(ctx, NOT_STARTED, seg, wait);
    DialogueJoins(ctx, NOT_STARTED, seg + wait, more);
    HeardMore(ctx, d.start, d.hs, h);
  }

  lemma NothingWoken(deadline: Deadline)
    ensures AwaitRun(deadline, Some(Normal), []) == Look
  {
  }

  /** The last wait: a byte or the clock ends the loop. */
  lemma LastWait(ctx: Ctx, seg: seq<Event>, wait: seq<Event>, w: Wake)
    requires var d := DialogueRun(ctx, seg);
      d.phase == Waiting(Look) && AwaitRun(ClientOf(ctx, d).deadline, Some(Normal), wait) == Woken(w) && !w.GotFrame?
    ensures DialogueRun(ctx, seg + wait) == DialogueRun(ctx, seg).(phase := Over(if w == Interrupted then ByByte else ByTime))
  {
    hide OnFrame, Answering, Arrived, DialogueFrom, AwaitRun;
    var d := DialogueRun(ctx, seg);
    if wait == [] { NothingWoken(ClientOf(ctx, d).deadline); }
    DialogueWaits(ctx, d, wait);
    DialogueJoins(ctx, NOT_STARTED, seg, wait);
  }

  /** The machine's step, in the order the loop body takes it. */
  lemma AnswerParts(ctx: Ctx, c: Client, h: Heard)
    requires |c.owed| <= SLOTS && c.ending == Listening && ctx.want.Accepts(h.frame.id) && !IsResponsePending(h.frame)
    ensures var shown := ShownAsResponse(ctx.s, h.frame);
      var log := if shown then Pushed(c.log, h.frame) else c.log;
      var counted := if shown then (c.counted + 1) % 256 else c.counted;
      var owed := Owing(ctx, c.owed, h.frame, h.answered);
      OnFrame(ctx, c, h) ==
        if shown && |c.log| >= LOG_CAPACITY then Client(c.log, c.counted, c.owed, c.deadline, Full)
        else if ctx.maxResponses > 0 && counted >= ctx.maxResponses then Client(log, counted, owed, c.deadline, Counted)
        else Client(log, counted, owed, After(h.now, if AnyOwed(owed) then FirstWaitMs(ctx.s) else NextWaitMs(ctx.s)),
                    Listening)
  {
  }
}
