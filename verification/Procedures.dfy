/** The bus procedures (lib/elm/src/bus.cpp): waiting, listen-before-talk, a request with its
    answers, the protocol search, the survey and the loopback probe. Each is proved against what it
    leaves on record. */
module Procedures {
  import opened CanTypes
  import opened Config
  import opened WriteGuard
  import opened Links
  import opened Bus
  import opened Conversation
  import opened Exchange
  import opened Record
  import Text
  import Input

  datatype Talk = Unchecked | Allowed | Mismatch

  // ---------- Waiting ----------

  /** What a wait adds: a frame it received, if it listened; the interrupting byte. */
  predicate WaitAdds(d: Digest, d': Digest, mode: Option<CanMode>, w: Wake) {
    d'.session == d.session && d'.sent == d.sent
    && (if w == Interrupted then d.interrupts < d'.interrupts else d.interrupts == d'.interrupts)
    && if w.GotFrame? && mode == Some(ListenOnly)
       then d'.history == d.history + [HeardTraffic(w.frame.id)] && d'.listened == d.listened + [w.frame]
       else d'.history == d.history && d'.listened == d.listened
  }

  /** A byte that did not interrupt, and the bytes after one that did. */
  predicate SameBut(d: Digest, d': Digest) {
    d'.session == d.session && d'.sent == d.sent && d'.history == d.history && d'.listened == d.listened
    && d.interrupts <= d'.interrupts
  }

  lemma ByteAdds(d: Digest, c: int, from: nat)
    requires d.session.running
    ensures var d' := Next(d, ByteRead(c, from));
      SameBut(d, d') && d'.interrupts == d.interrupts + (if c != NOTHING && c != LF then 1 else 0)
  {
  }

  lemma FrameAdds(d: Digest, f: CanFrame, mode: Option<CanMode>)
    ensures WaitAdds(d, Next(d, Received(f, mode)), mode, GotFrame(f))
  {
  }

  /** After an interrupting byte, the rest of its line is thrown away, for at most 100 ms. */
  method DiscardRestOfLine(hal: Hal, first: int, ghost d: Deadline, ghost mode: Option<CanMode>, ghost before: seq<Event>)
    returns (ghost seg: seq<Event>)
    requires hal.Valid() && hal.sum.session.running
    requires AwaitRun(d, mode, before) == if first == CR then Woken(Interrupted) else RestBegins
    modifies hal.Repr()
    ensures hal.Valid() && hal.Kept() && hal.trace == old(hal.trace) + seg && SameBut(old(hal.sum), hal.sum)
    ensures AwaitRun(d, mode, before + seg) == Woken(Interrupted)
  {
    hide Hal.Valid, Deadline.Passed, AwaitRun, Next;
    seg := [];
    assert before + seg == before;
    if first == CR { return; }
    var start := hal.NowMs();
    var until := After(start, INTERRUPT_LINE_REST_MS);
    seg := [Clock(start)];
    AwaitNext(d, mode, before, Clock(start));
    while true
      invariant hal.Valid() && hal.Kept() && hal.trace == old(hal.trace) + seg && SameBut(old(hal.sum), hal.sum)
      invariant AwaitRun(d, mode, before + seg) == Rest(until)
      decreases |hal.script|
    {
      var c;
      ghost var from;
      ghost var sum := hal.sum;
      c, from := hal.ReadByte();
      ByteAdds(sum, c, from);
      seg := Extended(d, mode, before, seg, ByteRead(c, from));
      if c == CR || c == LINK_CLOSED { return; }
      if c < 0 {
        var now := hal.NowMs();
        seg := Extended(d, mode, before, seg, Clock(now));
        if until.Passed(now) { return; }
      }
    }
  }

  /** One more event of a wait. */
  ghost function Extended(d: Deadline, mode: Option<CanMode>, before: seq<Event>, seg: seq<Event>, e: Event): (r: seq<Event>)
    ensures r == seg + [e]
    ensures AwaitRun(d, mode, before + r) == AwaitStep(d, mode, AwaitRun(d, mode, before + seg), e)
  {
    AwaitNext(d, mode, before + seg, e);
    assert before + (seg + [e]) == before + seg + [e];
    seg + [e]
  }

  /** Per round: a serial byte other than LF interrupts; else a frame; else the clock. */
  method Await(hal: Hal, d: Deadline) returns (w: Wake, ghost seg: seq<Event>)
    requires hal.Valid() && hal.sum.session.running
    modifies hal.Repr()
    ensures hal.Valid() && hal.Kept() && hal.trace == old(hal.trace) + seg
    ensures AwaitRun(d, hal.mode, seg) == Woken(w) && WaitAdds(old(hal.sum), hal.sum, hal.mode, w)
    ensures w.GotFrame? ==>
      |hal.script| < |old(hal.script)| && Ends(hal.trace, Received(w.frame, hal.mode))
  {
    hide Hal.Valid, Deadline.Passed, AwaitRun, Next;
    ghost var mode := hal.mode;
    seg := [];
    NothingAwaited(d, mode);
    while true
      invariant hal.Valid() && hal.Kept() && hal.trace == old(hal.trace) + seg
      invariant SameBut(old(hal.sum), hal.sum) && hal.sum.interrupts == old(hal.sum.interrupts)
      invariant AwaitRun(d, mode, seg) == Look
      decreases |hal.script|
    {
      var c;
      ghost var from;
      ghost var sum := hal.sum;
      c, from := hal.ReadByte();
      ByteAdds(sum, c, from);
      AwaitNext(d, mode, seg, ByteRead(c, from));
      seg := seg + [ByteRead(c, from)];
      if c == LINK_CLOSED { return Interrupted, seg; }
      if c >= 0 && c != LF {
        ghost var rest := DiscardRestOfLine(hal, c, d, mode, seg);
        assert old(hal.trace) + seg + rest == old(hal.trace) + (seg + rest);
        return Interrupted, seg + rest;
      }
      if c < 0 {
        var woken, wake;
        woken, wake, seg := LookForFrame(hal, d, seg);
        if woken { return wake, seg; }
      }
    }
  }

  /** A frame, if one is there; else the clock. */
  method LookForFrame(hal: Hal, d: Deadline, ghost before: seq<Event>) returns (woken: bool, w: Wake, ghost seg: seq<Event>)
    requires hal.Valid() && hal.sum.session.running && Looked(hal.trace) && AwaitRun(d, hal.mode, before) == Poll
    modifies hal
    ensures hal.Valid() && hal.Kept() && before <= seg && hal.trace == old(hal.trace) + seg[|before|..]
    ensures AwaitRun(d, hal.mode, seg) == (if woken then Woken(w) else Look) && w != Interrupted
    ensures if woken then WaitAdds(old(hal.sum), hal.sum, hal.mode, w) else hal.sum == old(hal.sum)
    ensures woken && w.GotFrame? ==>
      |hal.script| < |old(hal.script)| && Ends(hal.trace, Received(w.frame, hal.mode))
  {
    hide Hal.Valid, Deadline.Passed, AwaitRun, Next;
    ghost var sum := hal.sum;
    var f := hal.CanReceive();
    w := TimedOut;
    if f.Some? {
      FrameAdds(sum, f.value, hal.mode);
      AwaitNext(d, hal.mode, before, Received(f.value, hal.mode));
      return true, GotFrame(f.value), before + [Received(f.value, hal.mode)];
    }
    AwaitNext(d, hal.mode, before, NoFrame);
    seg := before + [NoFrame];
    var now := hal.NowMs();
    AwaitNext(d, hal.mode, seg, Clock(now));
    seg := seg + [Clock(now)];
    woken := d.Passed(now);
  }


  lemma NothingAwaited(d: Deadline, mode: Option<CanMode>)
    ensures AwaitRun(d, mode, []) == Look
  {
  }

  // ---------- The link to the bus ----------

  class LinkState {
    var open: bool
    var rate: Bitrate
    var acc: Acceptance
    var talk: Talk

    constructor ()
      ensures !open && talk == Unchecked
    {
      open, rate, acc, talk := false, K500, ACCEPT_ALL, Unchecked;
    }

    /** What the link believes is so: it is open at its rate, and an allowed link is cleared by a
        listen window that nothing has broken since. */
    ghost predicate Agrees(hal: Hal)
      reads this, hal`mode, hal`rate, hal`vouched
    {
      OnAir(hal) && (talk == Allowed ==> open && hal.vouched == Some(rate))
    }

    ghost predicate OnAir(hal: Hal)
      reads this, hal`mode, hal`rate
    {
      open ==> hal.mode.Some? && hal.rate == rate
    }

    method Configure(hal: Hal, r: Bitrate, m: CanMode, a: Acceptance) returns (ok: bool)
      requires hal.Valid() && OnAir(hal)
      modifies this, hal
      ensures hal.Valid() && OnAir(hal) && ok == open && (old(Agrees(hal)) ==> Agrees(hal))
      ensures hal.trace == old(hal.trace) + [Opened(r, m, a, ok)] && hal.sum == old(hal.sum)
      ensures hal.mode == (if ok then Some(m) else None) && hal.rate == r && rate == r && acc == a
      ensures talk == if ok && old(open) && old(rate) == r then old(talk) else Unchecked
      ensures hal.safe == old(hal.safe) && |hal.script| <= |old(hal.script)|
    {
      hide Hal.Valid, Next;
      if !open || rate != r { talk := Unchecked; }
      open := hal.CanOpen(r, m, a);
      rate, acc := r, a;
      if !open { talk := Unchecked; }
      ok := open;
    }

    method Close(hal: Hal)
      requires hal.Valid()
      modifies this`open, this`talk, hal
      ensures hal.Valid() && Agrees(hal) && !open && talk == Unchecked && hal.mode == None
      ensures hal.trace == old(hal.trace) + [Closed] && hal.sum == old(hal.sum)
      ensures hal.safe == old(hal.safe) && |hal.script| <= |old(hal.script)|
    {
      hide Hal.Valid, Next;
      hal.CanClose();
      open, talk := false, Unchecked;
    }
  }

  /** While a line runs: the record is safe, the guard knows exactly what is on record, the link's
      beliefs hold, and no TCP session has the WRITE tier. */
  ghost predicate World(hal: Hal, guard: Guard, link: LinkState)
    reads hal, hal.mux, hal.mux.outBuf, hal.mux.tcp, guard, guard.heard, guard.heard.ids, link
  {
    Core(hal, guard) && link.Agrees(hal)
  }

  ghost predicate Core(hal: Hal, guard: Guard)
    reads hal, hal.mux, hal.mux.outBuf, hal.mux.tcp, guard, guard.heard, guard.heard.ids
  {
    Steady(hal, guard) && hal.sum.session.running
  }

  ghost predicate Steady(hal: Hal, guard: Guard)
    reads hal, hal.mux, hal.mux.outBuf, hal.mux.tcp, guard, guard.heard, guard.heard.ids
  {
    hal.Valid() && guard.Valid() && hal.safe && guard.history == hal.sum.history && Trusted(hal.sum.session)
  }

  /** The same between two lines. */
  ghost predicate AtRest(hal: Hal, guard: Guard, link: LinkState)
    reads hal, hal.mux, hal.mux.outBuf, hal.mux.tcp, guard, guard.heard, guard.heard.ids, link
  {
    Steady(hal, guard) && link.Agrees(hal) && !hal.sum.session.running
  }

  predicate Trusted(s: Session) { s.onTcp ==> s.tier != Write }

  ghost predicate AtPrompt(hal: Hal)
    reads hal`mode
  {
    Mute(hal.mode)
  }

  /** What no bus procedure changes: the session, the tier, and what was typed and written. */
  twostate predicate SameSession(hal: Hal)
    reads hal`script, hal`sum, hal`trace
  {
    hal.sum.session == old(hal.sum.session) && |hal.script| <= |old(hal.script)| && old(hal.trace) <= hal.trace
  }

  /** And nothing was sent. */
  twostate predicate Sentless(hal: Hal)
    reads hal`script, hal`sum, hal`trace
  {
    SameSession(hal) && hal.sum.sent == old(hal.sum.sent)
  }

  /** Offers a frame to the guard, on record. */
  method Judge(hal: Hal, guard: Guard, f: CanFrame) returns (out: ClearedFrame)
    requires Core(hal, guard)
    modifies hal`trace, hal`sum, hal`vouched, hal`safe, guard
    ensures Core(hal, guard) && hal.trace == old(hal.trace) + [Judged(f)] && Sentless(hal)
    ensures hal.vouched == old(hal.vouched) && hal.sum.interrupts == old(hal.sum.interrupts)
    ensures out == (if Passes(old(guard.history), f) then Cleared(f) else Refused)
    ensures Passes(guard.history, f) <==> out.Cleared?
  {
    hide Hal.Valid, Guard.Valid, Passes, RequiredTier, TierNow;
    OfferKeeps(hal.sum.history, f);
    out := guard.Admit(f);
    hal.Mark(Judged(f));
  }

  lemma OfferKeeps(h: History, f: CanFrame)
    ensures Passes(h + [Offered(f)], f) <==> Passes(h, f)
    ensures Passes(h, f) <==> RequiredTier(h, f).AtMost(TierNow(h))
  {
    OfferKeepsVerdict(h, f, f);
  }

  /** A frame that the guard lets through, and that is fitting, may go out. */
  lemma MayGoOut(hal: Hal, guard: Guard, f: CanFrame, purpose: Purpose)
    requires Core(hal, guard) && Passes(guard.history, f) && Fitting(hal.trace, f, purpose, hal.mode, hal.rate)
    ensures forall ok :: Promised(hal.trace, SendTried(f, purpose, hal.mode, hal.rate, ok, hal.sum.session.onTcp))
  {
    hide Fitting, RequiredTier, LinkMux.Valid, Guard.Valid, Safe, Vouched;
    assert hal.Recorded();
    HistoryIsRecord(hal.trace);
  }

  // ---------- Listen before talk ----------

  /** 60 ms of listening from a freshly reset controller. Every frame goes to the guard. */
  method ListenBeforeTalk(hal: Hal, guard: Guard, link: LinkState, rate: Bitrate)
    returns (v: LbtVerdict, ghost w: seq<Event>)
    requires World(hal, guard, link) && AtPrompt(hal)
    modifies hal.Repr(), guard.Repr(), link
    ensures World(hal, guard, link) && AtPrompt(hal) && Sentless(hal)
    ensures hal.trace == old(hal.trace) + w && LbtShows(w, rate, v)
    ensures v == Verified || v == Silent ==>
      hal.vouched == Some(rate) && link.open && link.rate == rate && hal.mode == Some(ListenOnly)
    ensures if v == Disturbed then old(hal.sum.interrupts) < hal.sum.interrupts
            else hal.sum.interrupts == old(hal.sum.interrupts)
  {
    hide Hal.Valid, Guard.Valid, LbtShows, LinkState.Agrees;
    ghost var before := hal.trace;
    link.Close(hal);
    var ok := link.Configure(hal, rate, ListenOnly, ACCEPT_ALL);
    w := [Closed, Opened(rate, ListenOnly, ACCEPT_ALL, ok)];
    assert hal.trace == before + w;
    if !ok {
      FaultShows(rate);
      return Fault, w;
    }
    v, w := JudgeWindow(hal, guard, before, rate);
    assert link.Agrees(hal) by { LinkAgrees(link, hal); }
  }

  lemma FaultShows(rate: Bitrate)
    ensures LbtShows([Closed, Opened(rate, ListenOnly, ACCEPT_ALL, false)], rate, Fault)
  {
  }

  lemma LinkAgrees(link: LinkState, hal: Hal)
    requires link.talk != Allowed && (link.open ==> hal.mode.Some? && hal.rate == link.rate)
    ensures link.Agrees(hal)
  {
  }

  /** The window itself, on a controller just opened listen-only, and what it says about the rate. */
  method JudgeWindow(hal: Hal, guard: Guard, ghost before: seq<Event>, ghost rate: Bitrate)
    returns (v: LbtVerdict, ghost w: seq<Event>)
    requires Core(hal, guard) && hal.mode == Some(ListenOnly)
    requires hal.trace == before + [Closed, Opened(rate, ListenOnly, ACCEPT_ALL, true)]
    modifies hal.Repr(), guard.Repr()
    ensures Core(hal, guard) && hal.mode == Some(ListenOnly) && hal.rate == old(hal.rate) && Sentless(hal)
    ensures hal.trace == before + w && LbtShows(w, rate, v) && v != Fault
    ensures v == Verified || v == Silent ==> hal.vouched == Some(rate)
    ensures if v == Disturbed then old(hal.sum.interrupts) < hal.sum.interrupts
            else hal.sum.interrupts == old(hal.sum.interrupts)
  {
    hide Hal.Valid, Guard.Valid, Passes, Next, HeardIn, IsWindow;
    var wake, decoded;
    wake, decoded, w := Watch(hal, guard, before, rate);
    if wake == Interrupted { return Disturbed, w; }
    if decoded {
      VouchWindow(hal, guard, before, w, rate);
      return Verified, w;
    }
    var h := hal.CanHealthNow();
    WithHealth(w, h);
    w := w + [Health(h)];
    assert hal.trace == before + w;
    if h.errorEvents > 0 || h.rec > 0 { return WrongRate, w; }
    VouchWindow(hal, guard, before, w, rate);
    return Silent, w;
  }

  lemma WithHealth(w: seq<Event>, h: CanHealth)
    requires 3 <= |w| && w[2].Clock?
    ensures var all := w + [Health(h)]; all[..|all| - 1] == w && HeardIn(all, |all| - 1) == HeardIn(w, |w|)
  {
    var all := w + [Health(h)];
    assert all[3..|all| - 1] == w[3..|w|];
  }

  ghost method VouchWindow(hal: Hal, guard: Guard, before: seq<Event>, w: seq<Event>, rate: Bitrate)
    requires Core(hal, guard) && hal.trace == before + w
    requires FramesDecoded(w, rate) || (NothingDecoded(w, rate) && NoErrors(w[|w| - 1].health))
    modifies hal`vouched
    ensures Core(hal, guard) && hal.vouched == Some(rate)
  {
    hide Hal.Valid, Guard.Valid, HeardIn;
    hal.Vouch(before, w, rate);
  }

  /** The listening itself, for 60 ms. */
  method Watch(hal: Hal, guard: Guard, ghost before: seq<Event>, ghost rate: Bitrate)
    returns (wake: Wake, decoded: bool, ghost w: seq<Event>)
    requires Core(hal, guard) && hal.mode == Some(ListenOnly)
    requires hal.trace == before + [Closed, Opened(rate, ListenOnly, ACCEPT_ALL, true)]
    modifies hal.Repr(), guard.Repr()
    ensures Core(hal, guard) && hal.Kept() && Sentless(hal)
    ensures hal.trace == before + w && WindowBegins(w, rate) && HeardIn(w, |w|).at == Woken(wake)
    ensures wake == TimedOut || wake == Interrupted
    ensures decoded <==> HeardIn(w, |w|).frames != []
    ensures if wake == Interrupted then old(hal.sum.interrupts) < hal.sum.interrupts
            else hal.sum.interrupts == old(hal.sum.interrupts)
  {
    hide Hal.Valid, Guard.Valid, ListenRun, Next;
    var start := hal.NowMs();
    var d := After(start, LBT_WINDOW_MS);
    ghost var opening := [Closed, Opened(rate, ListenOnly, ACCEPT_ALL, true), Clock(start)];
    assert hal.trace == before + opening;
    var n;
    ghost var heard;
    wake, n, heard := Listen(hal, guard, d);
    decoded := n > 0;
    w := opening + heard;
    assert w[3..|w|] == heard && hal.trace == before + w;
  }

  /** One wait while listening; a frame's id goes to the guard at once. */
  method HearOne(hal: Hal, guard: Guard, d: Deadline) returns (wake: Wake, ghost wait: seq<Event>)
    requires Core(hal, guard) && hal.mode == Some(ListenOnly)
    modifies hal.Repr(), guard.Repr()
    ensures Core(hal, guard) && hal.Kept() && Sentless(hal)
    ensures hal.trace == old(hal.trace) + wait && AwaitRun(d, Some(ListenOnly), wait) == Woken(wake)
    ensures WaitAdds(old(hal.sum), hal.sum, Some(ListenOnly), wake)
    ensures wake.GotFrame? ==> |hal.script| < |old(hal.script)|
  {
    hide Hal.Valid, Guard.Valid, AwaitRun;
    ghost var apart: set<object> := {guard, guard.heard, guard.heard.ids};
    assert apart !! hal.Repr();
    wake, wait := Await(hal, d);
    if wake.GotFrame? { guard.Hear(wake.frame.id); }
  }

  /** Waits until the deadline, or a byte; every frame goes to the guard. */
  method Listen(hal: Hal, guard: Guard, d: Deadline) returns (wake: Wake, frames: nat, ghost seg: seq<Event>)
    requires Core(hal, guard) && hal.mode == Some(ListenOnly)
    modifies hal.Repr(), guard.Repr()
    ensures Core(hal, guard) && hal.Kept() && Sentless(hal)
    ensures hal.trace == old(hal.trace) + seg && ListenRun(d, seg).at == Woken(wake) && frames == |ListenRun(d, seg).frames|
    ensures wake == TimedOut || wake == Interrupted
    ensures if wake == Interrupted then old(hal.sum.interrupts) < hal.sum.interrupts
            else hal.sum.interrupts == old(hal.sum.interrupts)
  {
    hide Hal.Valid, Guard.Valid, ListenRun, AwaitRun, Core;
    frames, seg := 0, [];
    NothingListened(d);
    while true
      invariant Core(hal, guard) && hal.Kept() && Sentless(hal) && hal.mode == Some(ListenOnly)
      invariant hal.trace == old(hal.trace) + seg && hal.sum.interrupts == old(hal.sum.interrupts)
      invariant ListenRun(d, seg).at == Look && frames == |ListenRun(d, seg).frames|
      decreases |hal.script|
    {
      ghost var wait;
      wake, wait := HearOne(hal, guard, d);
      ListenJoins(d, seg, wait);
      assert old(hal.trace) + seg + wait == old(hal.trace) + (seg + wait);
      seg := seg + wait;
      if !wake.GotFrame? { return; }
      frames := frames + 1;
    }
  }

  lemma NothingListened(d: Deadline)
    ensures ListenRun(d, []) == Hearing([], Look)
  {
  }

  // ---------- A request and its answers ----------

  class RxLog {
    const frames: array<CanFrame>
    var count: nat

    ghost predicate Valid()
      reads this
    {
      frames.Length == LOG_CAPACITY && count <= LOG_CAPACITY
    }

    ghost function Contents(): (c: seq<CanFrame>)
      reads this, frames
      requires Valid()
      ensures |c| == count
    {
      frames[..count]
    }

    constructor ()
      ensures Valid() && fresh(frames) && Contents() == []
    {
      frames := new CanFrame[LOG_CAPACITY];
      count := 0;
    }

    method Clear()
      requires Valid()
      modifies this
      ensures Valid() && Contents() == []
    {
      count := 0;
    }

    method Push(f: CanFrame) returns (ok: bool)
      requires Valid()
      modifies this, frames
      ensures Valid() && ok == (|old(Contents())| < LOG_CAPACITY) && Contents() == Pushed(old(Contents()), f)
    {
      if count >= LOG_CAPACITY { return false; }
      frames[count] := f;
      count := count + 1;
      return true;
    }
  }

  /** What a request that the guard refuses at once leaves untouched: everything but the guard's
      memory of the offer. */
  twostate predicate OnlyOffered(hal: Hal, link: LinkState, new f: CanFrame)
    reads hal, link
  {
    hal.trace == old(hal.trace) + [Judged(f)] && hal.mode == old(hal.mode)
    && link.open == old(link.open) && link.rate == old(link.rate) && link.talk == old(link.talk)
  }

  /** Offers the request to the guard. On a link already cleared at this rate that is all; else it
      listens first, and offers the request again, because the window may have heard its id. */
  method ClearToSend(hal: Hal, guard: Guard, link: LinkState, request: CanFrame, ctx: Ctx)
    returns (cleared: ClearedFrame, early: Option<Outcome>, ghost clearance: Clearance, ghost course: Course)
    requires World(hal, guard, link) && AtPrompt(hal)
    modifies hal.Repr(), guard.Repr(), link
    ensures World(hal, guard, link) && AtPrompt(hal) && Sentless(hal)
    ensures early.None? ==>
      cleared == Cleared(request) && link.open && link.rate == BitrateOf(ctx.p) && link.talk == Allowed
      && Passes(guard.history, request) && Draining(hal.trace)
      && hal.trace == old(hal.trace) + ClearanceEvents(request, clearance) && ClearedAt(BitrateOf(ctx.p), clearance)
    ensures old(link.open && link.rate == BitrateOf(ctx.p) && link.talk == Allowed) ==>
      OnlyOffered(hal, link, request) && (Passes(old(guard.history), request) ==> early.None?)
    ensures early.Some? ==>
      Went(ctx, request, old(hal.trace), hal.trace, course) && !course.Talked? && early.value == OutcomeOf(ctx, course)
    ensures if early == Some(Stopped) then old(hal.sum.interrupts) < hal.sum.interrupts
            else hal.sum.interrupts == old(hal.sum.interrupts)
    ensures !Passes(old(guard.history), request) ==> early == Some(Blocked) && OnlyOffered(hal, link, request)
  {
    hide Hal.Valid, Guard.Valid, Passes, Summary, IsWindow, Next, Went, LogOf;
    ghost var before := hal.trace;
    early, clearance, course := None, AtOnce, NotPermitted(AtOnce);
    cleared := Judge(hal, guard, request);
    if cleared.Refused? {
      WentNowhere(hal, guard, ctx, request, before, AtOnce);
      return cleared, Some(Blocked), AtOnce, course;
    }
    if !link.open || link.rate != BitrateOf(ctx.p) || link.talk != Allowed {
      ghost var w;
      early, w, course := ListenFirst(hal, guard, link, request, ctx, before);
      if early.Some? { return; }
      clearance := AfterWindow(w);
      cleared := Judge(hal, guard, request);
      assert hal.trace == before + ClearanceEvents(request, clearance);
      if cleared.Refused? {
        WentNowhere(hal, guard, ctx, request, before, clearance);
        return cleared, Some(Blocked), clearance, NotPermitted(clearance);
      }
    }
  }

  /** The listen window, and what its verdict means for the request. */
  method ListenFirst(hal: Hal, guard: Guard, link: LinkState, ghost request: CanFrame, ctx: Ctx, ghost before: seq<Event>)
    returns (early: Option<Outcome>, ghost w: seq<Event>, ghost course: Course)
    requires World(hal, guard, link) && AtPrompt(hal) && hal.trace == before + [Judged(request)]
    modifies hal.Repr(), guard.Repr(), link
    ensures World(hal, guard, link) && AtPrompt(hal) && Sentless(hal)
    ensures early.None? ==>
      link.open && link.rate == BitrateOf(ctx.p) && link.talk == Allowed
      && hal.trace == before + ([Judged(request)] + w) && IsWindow(w, BitrateOf(ctx.p))
    ensures early.Some? ==>
      Went(ctx, request, before, hal.trace, course) && !course.Talked? && early.value == OutcomeOf(ctx, course)
    ensures early == None || early == Some(CanError) || early == Some(Stopped)
    ensures if early == Some(Stopped) then old(hal.sum.interrupts) < hal.sum.interrupts
            else hal.sum.interrupts == old(hal.sum.interrupts)
  {
    hide Hal.Valid, Guard.Valid, Passes, Summary, LbtShows, IsWindow, Next, Went, LogOf;
    var v;
    v, w := ListenBeforeTalk(hal, guard, link, BitrateOf(ctx.p));
    assert hal.trace == before + ([Judged(request)] + w);
    WentByWindow(ctx, request, before, hal.trace, w, v);
    match v
    case Disturbed => return Some(Stopped), w, WindowStopped(w);
    case Fault => return Some(CanError), w, NotListening(w);
    case WrongRate =>
      link.talk := Mismatch;
      return Some(CanError), w, RateWrong(w);
    case Verified =>
      link.talk := Allowed;
      return None, w, NotListening(w);
    case Silent =>
      link.talk := Allowed;
      return None, w, NotListening(w);
  }

  lemma WentNowhere(hal: Hal, guard: Guard, ctx: Ctx, f: CanFrame, before: seq<Event>, clearance: Clearance)
    requires Core(hal, guard) && !Passes(guard.history, f) && ClearedAt(BitrateOf(ctx.p), clearance)
    requires hal.trace == before + ClearanceEvents(f, clearance)
    ensures Went(ctx, f, before, hal.trace, NotPermitted(clearance))
  {
    hide Passes, Summary, Guard.Valid, IsWindow, ClearanceEvents;
    SumIsSummary(hal);
  }

  lemma WentByWindow(ctx: Ctx, f: CanFrame, before: seq<Event>, after: seq<Event>, w: seq<Event>, v: LbtVerdict)
    requires after == before + ([Judged(f)] + w) && LbtShows(w, BitrateOf(ctx.p), v)
    ensures v == Disturbed ==> Went(ctx, f, before, after, WindowStopped(w))
    ensures v == WrongRate ==> Went(ctx, f, before, after, RateWrong(w))
    ensures v == Fault ==> Went(ctx, f, before, after, NotListening(w))
    ensures v == Verified || v == Silent ==> IsWindow(w, BitrateOf(ctx.p))
  {
    hide Summary, HeardIn;
  }

  /** Throws away what is left from before, then sends in normal mode. */
  method Transmit(hal: Hal, guard: Guard, link: LinkState, cleared: ClearedFrame, ctx: Ctx, ghost before: seq<Event>,
                  ghost clearance: Clearance)
    returns (ok: bool, ghost course: Course)
    requires World(hal, guard, link) && AtPrompt(hal) && Draining(hal.trace)
    requires cleared.Cleared? && Passes(guard.history, cleared.frame) && ClearedAt(BitrateOf(ctx.p), clearance)
    requires hal.trace == before + ClearanceEvents(cleared.frame, clearance)
    requires link.open && link.rate == BitrateOf(ctx.p) && link.talk == Allowed
    modifies hal.Repr(), link
    ensures World(hal, guard, link) && SameSession(hal) && hal.sum.interrupts == old(hal.sum.interrupts)
    ensures if ok then hal.mode == Some(Normal) && hal.rate == BitrateOf(ctx.p) else AtPrompt(hal)
    ensures ok ==>
      course.NotAwaited? && Approached(ctx, course.approach)
      && hal.trace == before + (ApproachEvents(ctx, cleared.frame, course.approach, true)
                                + [RequestEvent(ctx, cleared.frame, true, course.onTcp)])
    ensures !ok ==>
      Went(ctx, cleared.frame, before, hal.trace, course) && !course.Talked? && OutcomeOf(ctx, course) == CanError
  {
    hide Hal.Valid, Guard.Valid, Passes, Summary, Next, Went, Vouched, Approached, ApproachEvents, ClearanceEvents,
         ClearedAt;
    var onAir;
    ghost var a;
    onAir, a := Prepare(hal, guard, link, ctx, before, cleared.frame, clearance);
    if !onAir {
      WentUnopened(ctx, cleared.frame, before, hal.trace, a);
      return false, NotOpened(a);
    }
    ghost var onTcp := hal.sum.session.onTcp;
    ok := SendCleared(hal, guard, link, cleared, ctx);
    assert hal.trace == before + (ApproachEvents(ctx, cleared.frame, a, true) + [RequestEvent(ctx, cleared.frame, ok, onTcp)]);
    course := NotAwaited(a, onTcp, false);
    if !ok { course := GiveUp(hal, guard, link, cleared.frame, ctx, before, a, onTcp); }
  }

  /** After a failed send. */
  method GiveUp(hal: Hal, guard: Guard, link: LinkState, ghost f: CanFrame, ctx: Ctx, ghost before: seq<Event>,
                ghost a: Approach, ghost onTcp: bool)
    returns (ghost course: Course)
    requires Core(hal, guard) && link.OnAir(hal) && Approached(ctx, a)
    requires hal.trace == before + (ApproachEvents(ctx, f, a, true) + [RequestEvent(ctx, f, false, onTcp)])
    modifies hal, link
    ensures World(hal, guard, link) && SameSession(hal) && hal.sum.interrupts == old(hal.sum.interrupts) && AtPrompt(hal)
    ensures Went(ctx, f, before, hal.trace, course) && course.SendFailed?
  {
    hide Hal.Valid, Guard.Valid, Summary, Next, Went, Vouched, Approached, ApproachEvents;
    var back := link.Configure(hal, BitrateOf(ctx.p), ListenOnly, ctx.want);
    link.talk := Unchecked;
    course := SendFailed(a, onTcp, back);
    WentUnsent(ctx, f, before, hal.trace, a, onTcp, back);
  }

  lemma WentUnopened(ctx: Ctx, f: CanFrame, before: seq<Event>, after: seq<Event>, a: Approach)
    requires Approached(ctx, a) && after == before + ApproachEvents(ctx, f, a, false)
    ensures Went(ctx, f, before, after, NotOpened(a))
  {
    hide Summary, Approached, ApproachEvents;
  }

  lemma WentUnsent(ctx: Ctx, f: CanFrame, before: seq<Event>, after: seq<Event>, a: Approach, onTcp: bool, back: bool)
    requires Approached(ctx, a)
    requires after == before + (ApproachEvents(ctx, f, a, true) + [RequestEvent(ctx, f, false, onTcp)])
                      + [BackToSilence(ctx, back)]
    ensures Went(ctx, f, before, after, SendFailed(a, onTcp, back))
  {
    hide Summary, Approached, ApproachEvents;
    assert after == before + CourseEvents(ctx, f, SendFailed(a, onTcp, back));
  }

  method SendCleared(hal: Hal, guard: Guard, link: LinkState, cleared: ClearedFrame, ctx: Ctx) returns (ok: bool)
    requires World(hal, guard, link) && hal.mode == Some(Normal)
    requires cleared.Cleared? && Passes(guard.history, cleared.frame)
    requires link.open && link.rate == BitrateOf(ctx.p) && link.talk == Allowed
    modifies hal
    ensures Core(hal, guard) && link.OnAir(hal) && SameSession(hal) && hal.mode == old(hal.mode)
    ensures hal.sum.interrupts == old(hal.sum.interrupts) && (ok ==> link.Agrees(hal))
    ensures hal.trace == old(hal.trace) + [RequestEvent(ctx, cleared.frame, ok, hal.sum.session.onTcp)]
  {
    hide Hal.Valid, Guard.Valid, Passes, Vouched, Promised;
    ClearedIsVouched(hal);
    MayGoOut(hal, guard, cleared.frame, Request);
    ok := hal.CanSend(cleared, Request);
  }

  lemma ClearedIsVouched(hal: Hal)
    requires hal.Valid()
    ensures hal.vouched.Some? ==> Vouched(hal.trace, hal.vouched.value)
  {
    hide Vouched;
  }

  /** Frames left from before the request are no answers: all of them are thrown away. Then the
      controller goes on air. */
  method Prepare(hal: Hal, guard: Guard, link: LinkState, ctx: Ctx, ghost before: seq<Event>, ghost f: CanFrame,
                 ghost clearance: Clearance)
    returns (ok: bool, ghost approach: Approach)
    requires World(hal, guard, link) && AtPrompt(hal) && Draining(hal.trace)
    requires hal.trace == before + ClearanceEvents(f, clearance) && ClearedAt(BitrateOf(ctx.p), clearance)
    requires link.open && link.rate == BitrateOf(ctx.p) && link.talk == Allowed
    modifies hal, link
    ensures World(hal, guard, link) && Sentless(hal) && hal.sum.interrupts == old(hal.sum.interrupts)
    ensures hal.trace == before + ApproachEvents(ctx, f, approach, ok) && Approached(ctx, approach)
    ensures if ok then hal.mode == Some(Normal) && link.open && link.rate == BitrateOf(ctx.p) && link.talk == Allowed
            else AtPrompt(hal)
  {
    hide Hal.Valid, Guard.Valid, Passes, Summary, Next, ThrownAway, ClearanceEvents, IsWindow;
    ghost var thrown := Drain(hal, guard, link);
    ok := link.Configure(hal, BitrateOf(ctx.p), Normal, ctx.want);
    approach := Approach(clearance, thrown);
    assert hal.trace == before + ApproachEvents(ctx, f, approach, ok);
  }

  method Drain(hal: Hal, guard: Guard, link: LinkState) returns (ghost thrown: seq<Event>)
    requires World(hal, guard, link) && hal.mode == Some(ListenOnly) && Draining(hal.trace)
    modifies hal
    ensures World(hal, guard, link) && Sentless(hal) && hal.mode == old(hal.mode)
    ensures hal.sum.interrupts == old(hal.sum.interrupts)
    ensures hal.trace == old(hal.trace) + thrown && ThrownAway(thrown)
  {
    hide Hal.Valid, Guard.Valid, Draining, Next, Looked;
    var more := true;
    thrown := [];
    while more
      invariant World(hal, guard, link) && Sentless(hal) && hal.mode == old(hal.mode)
      invariant more ==> Draining(hal.trace)
      invariant hal.sum.interrupts == old(hal.sum.interrupts)
      invariant hal.trace == old(hal.trace) + thrown && (more || Ends(thrown, NoFrame))
      invariant forall e :: e in thrown ==> e == NoFrame || (e.Received? && e.mode == Some(ListenOnly))
      decreases |hal.script|, more
    {
      ghost var sum, before := hal.sum, hal.trace;
      var dropped := hal.CanReceive();
      if dropped.Some? { DroppedAdds(sum, before, dropped.value, hal.mode); } else { NoFrameAdds(sum, before); }
      thrown := thrown + [if dropped.Some? then Received(dropped.value, hal.mode) else NoFrame];
      more := dropped.Some?;
    }
  }

  /** Right after the verdict on a request, or a frame thrown away since, no wait is looking. */
  lemma DroppedAdds(d: Digest, before: seq<Event>, f: CanFrame, mode: Option<CanMode>)
    requires Draining(before)
    ensures Added(d, before, Received(f, mode)) == d && Draining(before + [Received(f, mode)])
  {
    assert (before + [Received(f, mode)])[..|before|] == before;
  }

  lemma NoFrameAdds(d: Digest, before: seq<Event>)
    ensures Added(d, before, NoFrame) == d
  {
  }

  // ---------- Awaiting answers ----------

  /** On air in normal mode, as long as answers are awaited. */
  ghost predicate Talking(hal: Hal, guard: Guard, link: LinkState, ctx: Ctx)
    reads hal, hal.mux, hal.mux.outBuf, hal.mux.tcp, guard, guard.heard, guard.heard.ids, link
  {
    World(hal, guard, link) && hal.mode == Some(Normal) && hal.rate == BitrateOf(ctx.p)
  }

  /** Answers a first frame with flow control, if the guard and the controller let it through. */
  method ReplyFlowControl(hal: Hal, guard: Guard, link: LinkState, ctx: Ctx, first: CanFrame)
    returns (answered: bool, ghost passes: bool, ghost more: seq<Event>)
    requires Talking(hal, guard, link, ctx) && PciOf(first) == First && Ends(hal.trace, Received(first, Some(Normal)))
    modifies hal, guard.Repr(), link`talk
    ensures Talking(hal, guard, link, ctx) && SameSession(hal) && hal.sum.interrupts == old(hal.sum.interrupts)
    ensures hal.trace == old(hal.trace) + more && (answered ==> passes)
    ensures passes == Passes(old(guard.history), FlowControlFrame(ctx.s, ctx.p, first))
    ensures more == [Judged(FlowControlFrame(ctx.s, ctx.p, first)),
                     if passes then FlowEvent(ctx, first, answered, old(hal.sum.session.onTcp)) else Withheld]
  {
    hide Hal.Valid, Guard.Valid, FlowControlFrame, Passes, Promised, PciOf;
    var f := FlowControlFrame(ctx.s, ctx.p, first);
    var cleared := Judge(hal, guard, f);
    passes := cleared.Cleared?;
    AnswersReceived(old(hal.trace), f, first);
    if cleared.Cleared? { MayGoOut(hal, guard, f, FlowReply); } else { WithheldRightly(hal, guard, f); }
    ghost var judged := hal.trace;
    answered := hal.CanSend(cleared, FlowReply);
    more := [Judged(f), hal.trace[|judged|]];
    assert hal.trace == old(hal.trace) + more;
    if !answered { link.talk := Unchecked; }
  }

  lemma AnswersReceived(tr: seq<Event>, f: CanFrame, first: CanFrame)
    requires Ends(tr, Received(first, Some(Normal))) && PciOf(first) == First
    ensures AnswersFirst(tr + [Judged(f)], f)
  {
  }

  lemma WithheldRightly(hal: Hal, guard: Guard, f: CanFrame)
    requires Core(hal, guard) && Ends(hal.trace, Judged(f)) && !Passes(guard.history, f)
    ensures Promised(hal.trace, Withheld)
  {
    hide Passes, Guard.Valid;
    SumIsSummary(hal);
  }

  method ReadClock(hal: Hal, guard: Guard, link: LinkState) returns (now: uint32)
    requires World(hal, guard, link)
    modifies hal
    ensures World(hal, guard, link) && SameSession(hal) && hal.mode == old(hal.mode) && hal.rate == old(hal.rate)
    ensures hal.trace == old(hal.trace) + [Clock(now)] && hal.sum == old(hal.sum)
  {
    hide Hal.Valid, Guard.Valid, Next;
    now := hal.NowMs();
  }

  /** The loop's variables are the state `c` of the answer machine. */
  ghost predicate InStep(log: RxLog, owed: Text.OwedFrames, counted: byte, d: Deadline, ending: Ending, c: Client)
    reads log, log.frames, owed, owed.table, owed.table.entries
  {
    log.Valid() && owed.Valid() && Client(log.Contents(), counted, owed.Rows(), d, ending) == c
  }

  /** What the loop body does with one received frame: `more` is what it adds to the record. */
  method OnArrival(hal: Hal, guard: Guard, link: LinkState, ctx: Ctx, log: RxLog, owed: Text.OwedFrames, rx: CanFrame,
                   counted0: byte, d0: Deadline, ghost dia: Dialogue)
    returns (counted: byte, d: Deadline, ending: Ending, ghost h: Heard, ghost more: seq<Event>)
    requires Talking(hal, guard, link, ctx) && Ends(hal.trace, Received(rx, Some(Normal)))
    requires InStep(log, owed, counted0, d0, Listening, ClientOf(ctx, dia))
    modifies hal, guard.Repr(), link`talk, log, log.frames, owed.table, owed.table.entries
    ensures Talking(hal, guard, link, ctx) && SameSession(hal) && hal.sum.interrupts == old(hal.sum.interrupts)
    ensures hal.trace == old(hal.trace) + more
    ensures DialogueFrom(ctx, Arrived(ctx, dia, rx), more) == AfterFrame(dia, h, ending)
    ensures InStep(log, owed, counted, d, ending, OnFrame(ctx, ClientOf(ctx, dia), h))
  {
    hide Hal.Valid, Guard.Valid, World, OnAnswer, IsResponsePending, After, Answering, Arrived, DialogueFrom, Settled,
         NeedsReply;
    counted, d, ending, h, more := counted0, d0, Listening, Heard(rx, 0, false), [];
    if !ctx.want.Accepts(rx.id) {
      Unaccepted(ctx, dia, rx);
      return;
    }
    if IsResponsePending(rx) {
      PendingUnreplied(ctx, ClientOf(ctx, dia), rx);
      Unreplied(ctx, dia, rx);
      var ok := log.Push(rx);
      if !ok {
        NotStamped(ctx, dia, rx, false);
        return counted, d, Full, h, [];
      }
      var now := ReadClock(hal, guard, link);
      Stamped(ctx, dia, rx, [], false, now);
      assert [] + [Clock(now)] == [Clock(now)];
      return counted, After(now, PENDING_WAIT_MS), Listening, Heard(rx, now, false), [Clock(now)];
    }
    counted, d, ending, h, more := OnAnswerFrame(hal, guard, link, ctx, log, owed, rx, counted, d, dia);
  }

  lemma PendingUnreplied(ctx: Ctx, c: Client, f: CanFrame)
    requires IsResponsePending(f)
    ensures !NeedsReply(ctx, c, f)
  {
  }

  /** An accepted frame that is not response-pending: log it, answer a first frame, count. */
  method OnAnswerFrame(hal: Hal, guard: Guard, link: LinkState, ctx: Ctx, log: RxLog, owed: Text.OwedFrames, rx: CanFrame,
                       counted0: byte, d0: Deadline, ghost dia: Dialogue)
    returns (counted: byte, d: Deadline, ending: Ending, ghost h: Heard, ghost more: seq<Event>)
    requires Talking(hal, guard, link, ctx) && Ends(hal.trace, Received(rx, Some(Normal)))
    requires ctx.want.Accepts(rx.id) && !IsResponsePending(rx)
    requires InStep(log, owed, counted0, d0, Listening, ClientOf(ctx, dia))
    modifies hal, guard.Repr(), link`talk, log, log.frames, owed.table, owed.table.entries
    ensures Talking(hal, guard, link, ctx) && SameSession(hal) && hal.sum.interrupts == old(hal.sum.interrupts)
    ensures hal.trace == old(hal.trace) + more
    ensures DialogueFrom(ctx, Arrived(ctx, dia, rx), more) == AfterFrame(dia, h, ending)
    ensures InStep(log, owed, counted, d, ending, OnFrame(ctx, ClientOf(ctx, dia), h))
  {
    hide Hal.Valid, Guard.Valid, World, OnFrame, IsResponsePending, After, Answering, Arrived, DialogueFrom, Settled,
         ShownAsResponse, Owing, Text.AnyOwed, FirstWaitMs, NextWaitMs, Text.OwedFrames.Valid, Text.OwedFrames.Rows,
         RxLog.Valid, RxLog.Contents, Talking;
    counted, d, ending, h, more := counted0, d0, Listening, Heard(rx, 0, false), [];
    ghost var c := ClientOf(ctx, dia);
    AnswerParts(ctx, c, h);
    var shown := ShownAsResponse(ctx.s, rx);
    if shown {
      var ok := log.Push(rx);
      if !ok {
        Unreplied(ctx, dia, rx);
        NotStamped(ctx, dia, rx, false);
        return counted, d, Full, h, [];
      }
      counted := (counted + 1) % 256;
    }
    d, ending, h, more := CountAndRearm(hal, guard, link, ctx, owed, rx, counted, d, dia);
    AnswerParts(ctx, c, h);
  }

  /** After the log: flow control and counters, then the digit, then the deadline. */
  method CountAndRearm(hal: Hal, guard: Guard, link: LinkState, ctx: Ctx, owed: Text.OwedFrames, rx: CanFrame,
                       counted: byte, d0: Deadline, ghost dia: Dialogue)
    returns (d: Deadline, ending: Ending, ghost h: Heard, ghost more: seq<Event>)
    requires Talking(hal, guard, link, ctx) && Ends(hal.trace, Received(rx, Some(Normal)))
    requires ctx.want.Accepts(rx.id) && !IsResponsePending(rx)
    requires var c := ClientOf(ctx, dia);
      c.ending == Listening && owed.Valid() && owed.Rows() == c.owed && !(ShownAsResponse(ctx.s, rx) && |c.log| >= LOG_CAPACITY)
      && counted == if ShownAsResponse(ctx.s, rx) then (c.counted + 1) % 256 else c.counted
    modifies hal, guard.Repr(), link`talk, owed.table, owed.table.entries
    ensures Talking(hal, guard, link, ctx) && SameSession(hal) && hal.sum.interrupts == old(hal.sum.interrupts)
    ensures hal.trace == old(hal.trace) + more
    ensures h.frame == rx && owed.Valid() && owed.Rows() == Owing(ctx, old(owed.Rows()), rx, h.answered)
    ensures if ctx.maxResponses > 0 && counted >= ctx.maxResponses then ending == Counted && d == d0
            else
              ending == Listening
              && d == After(h.now, if Text.AnyOwed(owed.Rows()) then FirstWaitMs(ctx.s) else NextWaitMs(ctx.s))
    ensures DialogueFrom(ctx, Arrived(ctx, dia, rx), more) == AfterFrame(dia, h, ending)
  {
    hide Hal.Valid, Guard.Valid, World, OnFrame, IsResponsePending, After, Answering, Arrived, DialogueFrom, Settled,
         ShownAsResponse, Owing, Text.AnyOwed, FirstWaitMs, NextWaitMs, Text.OwedFrames.Valid, Text.OwedFrames.Rows;
    ghost var c := ClientOf(ctx, dia);
    var answered;
    answered, more := ReplyAndCount(hal, guard, link, ctx, owed, rx, dia);
    h := Heard(rx, 0, answered);
    AnswerParts(ctx, c, h);
    if ctx.maxResponses > 0 && counted >= ctx.maxResponses {
      NotStamped(ctx, dia, rx, answered);
      return d0, Counted, h, more;
    }
    var now := ReadClock(hal, guard, link);
    Stamped(ctx, dia, rx, more, answered, now);
    more := more + [Clock(now)];
    assert hal.trace == old(hal.trace) + more;
    var any := owed.Any();
    d, ending := After(now, if any then FirstWaitMs(ctx.s) else NextWaitMs(ctx.s)), Listening;
    h := Heard(rx, now, answered);
  }

  /** A first frame is answered, and its consecutive frames owed; a consecutive one is ticked off. */
  method ReplyAndCount(hal: Hal, guard: Guard, link: LinkState, ctx: Ctx, owed: Text.OwedFrames, rx: CanFrame,
                       ghost dia: Dialogue)
    returns (answered: bool, ghost more: seq<Event>)
    requires Talking(hal, guard, link, ctx) && Ends(hal.trace, Received(rx, Some(Normal))) && owed.Valid()
    requires ctx.want.Accepts(rx.id) && !IsResponsePending(rx)
    requires !(ShownAsResponse(ctx.s, rx) && |ClientOf(ctx, dia).log| >= LOG_CAPACITY)
    modifies hal, guard.Repr(), link`talk, owed.table, owed.table.entries
    ensures Talking(hal, guard, link, ctx) && SameSession(hal) && hal.sum.interrupts == old(hal.sum.interrupts)
    ensures hal.trace == old(hal.trace) + more
    ensures owed.Valid() && owed.Rows() == Owing(ctx, old(owed.Rows()), rx, answered)
    ensures DialogueFrom(ctx, Arrived(ctx, dia, rx), more) == Settled(ctx, dia, rx, answered)
  {
    hide Hal.Valid, Guard.Valid, World, Text.Expect, Text.Received, Text.OwedFrames.Valid, Text.OwedFrames.Rows,
         IsResponsePending, Answering, Arrived, DialogueFrom, Settled, ShownAsResponse, PciOf, Talking, FlowControlFrame;
    answered, more := false, [];
    if PciOf(rx) == First && ctx.s.cfc {
      ghost var passes;
      ghost var onTcp := hal.sum.session.onTcp;
      answered, passes, more := ReplyFlowControl(hal, guard, link, ctx, rx);
      Replied(ctx, dia, rx, passes, answered, onTcp);
      if answered { owed.ExpectFrames(rx); }
    } else {
      Unreplied(ctx, dia, rx);
      if PciOf(rx) == Consecutive { owed.FrameReceived(rx.id); }
    }
  }

  /** The loop that waits for answers: what it leaves on record is a dialogue, from the first clock
      reading to its end, and the log is the dialogue's. */
  method Collect(hal: Hal, guard: Guard, link: LinkState, ctx: Ctx, log: RxLog)
    returns (how: Ended, ghost seg: seq<Event>)
    requires Talking(hal, guard, link, ctx) && log.Valid() && log.Contents() == []
    modifies hal.Repr(), guard.Repr(), link`talk, log, log.frames
    ensures Talking(hal, guard, link, ctx) && SameSession(hal) && log.Valid()
    ensures hal.trace == old(hal.trace) + seg && DialogueRun(ctx, seg).phase == Over(how)
    ensures log.Contents() == ClientOf(ctx, DialogueRun(ctx, seg)).log
    ensures if how == ByByte then old(hal.sum.interrupts) < hal.sum.interrupts
            else hal.sum.interrupts == old(hal.sum.interrupts)
  {
    hide Hal.Valid, Guard.Valid, World, Answering, DialogueRun, FirstWaitMs, InStep, RxLog.Contents, Text.OwedFrames.Rows;
    var owed := new Text.OwedFrames();
    ghost var own: set<object> := {owed, owed.table, owed.table.entries};
    assert own !! hal.Repr() + guard.Repr() + {link, log, log.frames};
    var now := ReadClock(hal, guard, link);
    var d := After(now, FirstWaitMs(ctx.s));
    seg := [Clock(now)];
    DialogueStarts(ctx, now);
    StepStarts(log, owed, d);
    assert hal.trace == old(hal.trace) + seg;
    how, seg := CollectUntil(hal, guard, link, ctx, log, owed, d, seg);
  }

  lemma DialogueStarts(ctx: Ctx, now: uint32)
    ensures DialogueRun(ctx, [Clock(now)]) == Dialogue(now, [], Waiting(Look))
    ensures ClientOf(ctx, DialogueRun(ctx, [Clock(now)])) == Client([], 0, [], After(now, FirstWaitMs(ctx.s)), Listening)
  {
    DialogueNext(ctx, NOT_STARTED, [], Clock(now));
    assert [] + [Clock(now)] == [Clock(now)];
  }

  lemma StepStarts(log: RxLog, owed: Text.OwedFrames, d: Deadline)
    requires log.Valid() && log.Contents() == [] && owed.Valid() && owed.Rows() == []
    ensures InStep(log, owed, 0, d, Listening, Client([], 0, [], d, Listening))
  {
  }

  lemma StepParts(log: RxLog, owed: Text.OwedFrames, counted: byte, d: Deadline, ending: Ending, c: Client)
    requires InStep(log, owed, counted, d, ending, c)
    ensures log.Valid() && log.Contents() == c.log && ending == c.ending && d == c.deadline
  {
  }

  method CollectUntil(hal: Hal, guard: Guard, link: LinkState, ctx: Ctx, log: RxLog, owed: Text.OwedFrames, first: Deadline,
                      ghost seg0: seq<Event>)
    returns (how: Ended, ghost seg: seq<Event>)
    requires Talking(hal, guard, link, ctx)
    requires InLoop(log, owed, 0, first, ctx, seg0)
    modifies hal.Repr(), guard.Repr(), link`talk, log, log.frames, owed.table, owed.table.entries
    ensures Talking(hal, guard, link, ctx) && SameSession(hal) && log.Valid()
    ensures seg0 <= seg && hal.trace == old(hal.trace) + seg[|seg0|..] && DialogueRun(ctx, seg).phase == Over(how)
    ensures log.Contents() == ClientOf(ctx, DialogueRun(ctx, seg)).log
    ensures if how == ByByte then old(hal.sum.interrupts) < hal.sum.interrupts
            else hal.sum.interrupts == old(hal.sum.interrupts)
  {
    hide Hal.Valid, Guard.Valid, DialogueRun, InLoop, Talking, RxLog.Contents, ClientOf;
    seg := seg0;
    var counted: byte := 0;
    var d := first;
    var over: Option<Ended> := None;
    while over.None?
      invariant Talking(hal, guard, link, ctx) && SameSession(hal)
      invariant if over == Some(ByByte) then old(hal.sum.interrupts) < hal.sum.interrupts
                else hal.sum.interrupts == old(hal.sum.interrupts)
      invariant seg0 <= seg && hal.trace == old(hal.trace) + seg[|seg0|..]
      invariant over.None? ==> InLoop(log, owed, counted, d, ctx, seg)
      invariant over.Some? ==>
        DialogueRun(ctx, seg).phase == Over(over.value) && log.Valid()
        && log.Contents() == ClientOf(ctx, DialogueRun(ctx, seg)).log
      decreases |hal.script|, over.None?
    {
      ghost var more;
      over, counted, d, more := Round(hal, guard, link, ctx, log, owed, counted, d, seg);
      seg := seg + more;
    }
    how := over.value;
  }

  /** About to wait: the loop's variables are the dialogue's. */
  ghost predicate InLoop(log: RxLog, owed: Text.OwedFrames, counted: byte, d: Deadline, ctx: Ctx, seg: seq<Event>)
    reads log, log.frames, owed, owed.table, owed.table.entries
  {
    DialogueRun(ctx, seg).phase == Waiting(Look)
    && InStep(log, owed, counted, d, Listening, ClientOf(ctx, DialogueRun(ctx, seg)))
  }

  /** One round of the loop. */
  method Round(hal: Hal, guard: Guard, link: LinkState, ctx: Ctx, log: RxLog, owed: Text.OwedFrames,
               counted0: byte, d0: Deadline, ghost seg: seq<Event>)
    returns (over: Option<Ended>, counted: byte, d: Deadline, ghost more: seq<Event>)
    requires Talking(hal, guard, link, ctx)
    requires InLoop(log, owed, counted0, d0, ctx, seg)
    modifies hal.Repr(), guard.Repr(), link`talk, log, log.frames, owed.table, owed.table.entries
    ensures Talking(hal, guard, link, ctx) && SameSession(hal)
    ensures hal.trace == old(hal.trace) + more && (over.None? ==> |hal.script| < |old(hal.script)|)
    ensures if over == Some(ByByte) then old(hal.sum.interrupts) < hal.sum.interrupts
            else hal.sum.interrupts == old(hal.sum.interrupts)
    ensures over.None? ==> InLoop(log, owed, counted, d, ctx, seg + more)
    ensures over.Some? ==>
      DialogueRun(ctx, seg + more).phase == Over(over.value) && log.Valid()
      && log.Contents() == ClientOf(ctx, DialogueRun(ctx, seg + more)).log
  {
    hide Hal.Valid, Guard.Valid, Answering, DialogueRun, InStep, Talking, AwaitRun, OnFrame, Arrived, DialogueFrom, AfterFrame;
    ghost var mine: set<object> := {log, log.frames, owed, owed.table, owed.table.entries};
    assert mine !! hal.Repr();
    counted, d := counted0, d0;
    ghost var dia, wait := DialogueRun(ctx, seg), [];
    StepParts(log, owed, counted, d, Listening, ClientOf(ctx, dia));
    var w;
    w, wait := AwaitAnswer(hal, guard, link, ctx, d);
    if !w.GotFrame? {
      LastWait(ctx, seg, wait, w);
      StepParts(log, owed, counted, d, Listening, ClientOf(ctx, dia));
      return Some(if w == Interrupted then ByByte else ByTime), counted, d, wait;
    }
    var ending;
    ghost var h;
    counted, d, ending, h, more := OnArrival(hal, guard, link, ctx, log, owed, w.frame, counted, d, dia);
    RoundDone(log, owed, counted, d, ending, ctx, seg, wait, more, w.frame, h);
    more := wait + more;
    over := HowOver(ending);
  }

  function HowOver(ending: Ending): Option<Ended> {
    match ending case Listening => None case Counted => Some(ByCount) case Full => Some(ByFull)
  }

  lemma RoundDone(log: RxLog, owed: Text.OwedFrames, counted: byte, d: Deadline, ending: Ending, ctx: Ctx, seg: seq<Event>,
                  wait: seq<Event>, more: seq<Event>, f: CanFrame, h: Heard)
    requires var dia := DialogueRun(ctx, seg);
      dia.phase == Waiting(Look) && AwaitRun(ClientOf(ctx, dia).deadline, Some(Normal), wait) == Woken(GotFrame(f))
      && DialogueFrom(ctx, Arrived(ctx, dia, f), more) == AfterFrame(dia, h, ending)
      && InStep(log, owed, counted, d, ending, OnFrame(ctx, ClientOf(ctx, dia), h))
    ensures ending == Listening ==> InLoop(log, owed, counted, d, ctx, seg + (wait + more))
    ensures var dia := DialogueRun(ctx, seg + (wait + more));
      log.Valid() && log.Contents() == ClientOf(ctx, dia).log && (ending != Listening ==> dia.phase == Over(HowOver(ending).value))
  {
    hide Answering, DialogueRun, AwaitRun, OnFrame, Arrived, DialogueFrom;
    RoundJoins(ctx, seg, wait, more, f, h, ending);
    assert seg + (wait + more) == seg + wait + more;
  }

  method AwaitAnswer(hal: Hal, guard: Guard, link: LinkState, ghost ctx: Ctx, d: Deadline)
    returns (w: Wake, ghost wait: seq<Event>)
    requires Talking(hal, guard, link, ctx)
    modifies hal.Repr()
    ensures Talking(hal, guard, link, ctx) && SameSession(hal)
    ensures hal.trace == old(hal.trace) + wait && AwaitRun(d, Some(Normal), wait) == Woken(w)
    ensures w.GotFrame? ==> |hal.script| < |old(hal.script)| && Ends(hal.trace, Received(w.frame, Some(Normal)))
    ensures if w == Interrupted then old(hal.sum.interrupts) < hal.sum.interrupts
            else hal.sum.interrupts == old(hal.sum.interrupts)
  {
    hide Hal.Valid, Guard.Valid, AwaitRun;
    w, wait := Await(hal, d);
  }

  function ContextOf(s: Settings, p: Protocol, req: Input.HexRequest): Ctx {
    Ctx(s, p, ReceiveFilter(s, p), req.maxResponses)
  }

  /** From the sent request to the return to listen-only. */
  method AwaitAnswers(hal: Hal, guard: Guard, link: LinkState, ctx: Ctx, log: RxLog)
    returns (o: Outcome, ghost dialogue: seq<Event>, ghost health: CanHealth, ghost back: bool)
    requires Talking(hal, guard, link, ctx) && log.Valid() && log.Contents() == []
    modifies hal.Repr(), guard.Repr(), link, log, log.frames
    ensures World(hal, guard, link) && AtPrompt(hal) && SameSession(hal) && log.Valid()
    ensures hal.trace == old(hal.trace) + (dialogue + [Health(health)] + [BackToSilence(ctx, back)])
    ensures DialogueRun(ctx, dialogue).phase.Over? && log.Contents() == ClientOf(ctx, DialogueRun(ctx, dialogue)).log
    ensures o == OutcomeAfter(HowEnded(DialogueRun(ctx, dialogue)), health.rxOverflow, log.Contents())
    ensures if o == Stopped then old(hal.sum.interrupts) < hal.sum.interrupts
            else hal.sum.interrupts == old(hal.sum.interrupts)
  {
    hide Hal.Valid, Guard.Valid, Answering, DialogueRun, World;
    ghost var mine: set<object> := {log, log.frames};
    assert mine !! hal.Repr();
    var how;
    how, dialogue := Collect(hal, guard, link, ctx, log);
    var h, quiet := FinishAnswers(hal, guard, link, ctx);
    health, back := h, quiet;
    assert hal.trace == old(hal.trace) + (dialogue + [Health(health)] + [BackToSilence(ctx, back)]);
    o := if how == ByByte then Stopped
         else if how == ByFull || h.rxOverflow then BufferFull
         else if log.count > 0 then Answered else NoData;
  }

  /** Back to listen-only. */
  method Quieten(hal: Hal, guard: Guard, link: LinkState, ctx: Ctx) returns (back: bool)
    requires World(hal, guard, link)
    modifies hal, link
    ensures World(hal, guard, link) && AtPrompt(hal) && SameSession(hal) && hal.sum == old(hal.sum)
    ensures hal.trace == old(hal.trace) + [BackToSilence(ctx, back)]
  {
    hide Hal.Valid, Guard.Valid;
    back := link.Configure(hal, BitrateOf(ctx.p), ListenOnly, ctx.want);
  }

  method FinishAnswers(hal: Hal, guard: Guard, link: LinkState, ctx: Ctx) returns (h: CanHealth, back: bool)
    requires World(hal, guard, link)
    modifies hal, link
    ensures World(hal, guard, link) && AtPrompt(hal) && SameSession(hal) && hal.sum == old(hal.sum)
    ensures hal.trace == old(hal.trace) + [Health(h)] + [BackToSilence(ctx, back)]
  {
    hide Hal.Valid, Guard.Valid, Next;
    h := hal.CanHealthNow();
    back := Quieten(hal, guard, link, ctx);
  }

  /** One request with its answers. Main result: what it leaves on record is one of the courses a
      request can take, and the outcome and the log are that course's. The controller ends silent,
      and a request that the guard refuses at once does nothing on the bus. */
  method Converse(hal: Hal, guard: Guard, link: LinkState, s: Settings, p: Protocol, req: Input.HexRequest, log: RxLog)
    returns (o: Outcome, ghost course: Course)
    requires World(hal, guard, link) && AtPrompt(hal) && log.Valid()
    modifies hal.Repr(), guard.Repr(), link, log, log.frames
    ensures World(hal, guard, link) && AtPrompt(hal) && SameSession(hal) && log.Valid()
    ensures Went(ContextOf(s, p, req), RequestFrame(s, p, req.bytes), old(hal.trace), hal.trace, course)
    ensures o == OutcomeOf(ContextOf(s, p, req), course) && log.Contents() == LogOf(ContextOf(s, p, req), course)
    ensures if o == Stopped then old(hal.sum.interrupts) < hal.sum.interrupts
            else hal.sum.interrupts == old(hal.sum.interrupts)
    ensures !Passes(old(guard.history), RequestFrame(s, p, req.bytes)) ==>
      o == Blocked && OnlyOffered(hal, link, RequestFrame(s, p, req.bytes))
  {
    hide Hal.Valid, Guard.Valid, World, RequestFrame, ReceiveFilter, Passes, Went, RxLog.Contents, Approached,
         ApproachEvents, DialogueRun, Answering;
    ghost var mine: set<object> := {log, log.frames};
    assert mine !! hal.Repr();
    var ctx := ContextOf(s, p, req);
    ghost var before := hal.trace;
    var request := RequestFrame(s, p, req.bytes);
    log.Clear();
    var early;
    early, course := SendRequest(hal, guard, link, ctx, request);
    if early.Some? { return early.value, course; }
    ghost var a, onTcp, dialogue, health, back := course.approach, course.onTcp, [], CanHealth(0, 0, 0, false), false;
    o, dialogue, health, back := AwaitAnswers(hal, guard, link, ctx, log);
    course := Talked(a, onTcp, dialogue, health, back);
    WentTalking(ctx, request, before, hal.trace, a, onTcp, dialogue, health, back);
  }

  lemma WentTalking(ctx: Ctx, f: CanFrame, before: seq<Event>, after: seq<Event>, a: Approach, onTcp: bool,
                    dialogue: seq<Event>, health: CanHealth, back: bool)
    requires Approached(ctx, a) && Awaited(ctx) && DialogueRun(ctx, dialogue).phase.Over?
    requires after == before + (ApproachEvents(ctx, f, a, true) + [RequestEvent(ctx, f, true, onTcp)])
                      + (dialogue + [Health(health)] + [BackToSilence(ctx, back)])
    ensures Went(ctx, f, before, after, Talked(a, onTcp, dialogue, health, back))
  {
    hide Summary, Approached, ApproachEvents, DialogueRun;
    assert after == before + CourseEvents(ctx, f, Talked(a, onTcp, dialogue, health, back));
  }

  lemma WentUnawaited(ctx: Ctx, f: CanFrame, before: seq<Event>, after: seq<Event>, a: Approach, onTcp: bool, back: bool)
    requires Approached(ctx, a) && !Awaited(ctx)
    requires after == before + (ApproachEvents(ctx, f, a, true) + [RequestEvent(ctx, f, true, onTcp)])
                      + [BackToSilence(ctx, back)]
    ensures Went(ctx, f, before, after, NotAwaited(a, onTcp, back))
  {
    hide Summary, Approached, ApproachEvents;
    assert after == before + CourseEvents(ctx, f, NotAwaited(a, onTcp, back));
  }

  /** Up to the sent request; `early` is how it ended if no answer is awaited. */
  method SendRequest(hal: Hal, guard: Guard, link: LinkState, ctx: Ctx, request: CanFrame)
    returns (early: Option<Outcome>, ghost course: Course)
    requires World(hal, guard, link) && AtPrompt(hal)
    modifies hal.Repr(), guard.Repr(), link
    ensures World(hal, guard, link) && SameSession(hal)
    ensures early.None? ==>
      Talking(hal, guard, link, ctx) && Awaited(ctx) && course.NotAwaited? && Approached(ctx, course.approach)
      && hal.trace == old(hal.trace) + (ApproachEvents(ctx, request, course.approach, true)
                                        + [RequestEvent(ctx, request, true, course.onTcp)])
    ensures early.Some? ==>
      AtPrompt(hal) && Went(ctx, request, old(hal.trace), hal.trace, course) && !course.Talked?
      && early.value == OutcomeOf(ctx, course)
    ensures if early == Some(Stopped) then old(hal.sum.interrupts) < hal.sum.interrupts
            else hal.sum.interrupts == old(hal.sum.interrupts)
    ensures !Passes(old(guard.history), request) ==> early == Some(Blocked) && OnlyOffered(hal, link, request)
  {
    hide Hal.Valid, Guard.Valid, Passes, Went, Approached, ApproachEvents, ClearanceEvents, ClearedAt, LogOf, Summary,
         LinkState.Agrees, World;
    ghost var before := hal.trace;
    var cleared;
    ghost var clearance;
    cleared, early, clearance, course := ClearToSend(hal, guard, link, request, ctx);
    if early.Some? { return; }
    var sent;
    sent, course := Transmit(hal, guard, link, cleared, ctx, before, clearance);
    if !sent { return Some(CanError), course; }
    if !ctx.s.responses || ctx.maxResponses == 0 {
      ghost var a, onTcp := course.approach, course.onTcp;
      var back := Quieten(hal, guard, link, ctx);
      WentUnawaited(ctx, request, before, hal.trace, a, onTcp, back);
      return Some(SentOnly), NotAwaited(a, onTcp, back);
    }
  }

  // ---------- The protocol search ----------

  const SEARCH_ORDER: seq<Protocol> := [Can11_500, Can29_500, Can11_250, Can29_250]

  /** The guard lets the request through under at least one searched protocol. */
  ghost predicate CanBeSearched(h: History, s: Settings, req: Input.HexRequest) {
    exists i :: 0 <= i < |SEARCH_ORDER| && Passes(h, RequestFrame(s, SEARCH_ORDER[i], req.bytes))
  }

  method Searchable(guard: Guard, s: Settings, req: Input.HexRequest) returns (yes: bool)
    requires guard.Valid()
    ensures yes <==> CanBeSearched(guard.history, s, req)
  {
    hide Guard.Valid, RequestFrame, RequiredTier, TierNow;
    for i := 0 to |SEARCH_ORDER|
      invariant forall j :: 0 <= j < i ==> !Passes(guard.history, RequestFrame(s, SEARCH_ORDER[j], req.bytes))
    {
      var ok := guard.Permits(RequestFrame(s, SEARCH_ORDER[i], req.bytes));
      if ok { return true; }
    }
    return false;
  }

  /** Offering the request under one protocol never changes the verdict under another. */
  lemma OfferKeepsSearch(h: History, s: Settings, req: Input.HexRequest, p: Protocol)
    ensures CanBeSearched(h + [Offered(RequestFrame(s, p, req.bytes))], s, req) <==> CanBeSearched(h, s, req)
  {
    hide RequestFrame, RequiredTier, TierNow;
    var h' := h + [Offered(RequestFrame(s, p, req.bytes))];
    forall i | 0 <= i < |SEARCH_ORDER|
      ensures var f := RequestFrame(s, SEARCH_ORDER[i], req.bytes); Passes(h', f) <==> Passes(h, f) {
      RequestDataSame(s, SEARCH_ORDER[i], p, req.bytes);
      OfferKeepsVerdict(h, RequestFrame(s, p, req.bytes), RequestFrame(s, SEARCH_ORDER[i], req.bytes));
    }
  }

  /** One attempt of a search: how it went, and the record after it. */
  datatype Attempt = Attempt(course: Course, after: seq<Event>)

  ghost predicate AttemptWent(s: Settings, req: Input.HexRequest, before: seq<Event>, tries: seq<Attempt>, i: nat)
    requires i < |tries| && i < |SEARCH_ORDER|
  {
    var p := SEARCH_ORDER[i];
    Went(ContextOf(s, p, req), RequestFrame(s, p, req.bytes), if i == 0 then before else tries[i - 1].after,
         tries[i].after, tries[i].course)
  }

  function ResultOf(s: Settings, req: Input.HexRequest, tries: seq<Attempt>, i: nat): Outcome
    requires i < |tries| && i < |SEARCH_ORDER|
  {
    OutcomeOf(ContextOf(s, SEARCH_ORDER[i], req), tries[i].course)
  }

  /** An outcome that settles the protocol, and one that ends the search. */
  predicate Settles(o: Outcome) { o == Answered || o == BufferFull || o == SentOnly }

  predicate EndsSearch(o: Outcome) { Settles(o) || o == Stopped }

  /** The protocols were tried in order, each after the other, and none but the last ended the search. */
  ghost predicate TriedInOrder(s: Settings, req: Input.HexRequest, before: seq<Event>, tries: seq<Attempt>) {
    |tries| <= |SEARCH_ORDER|
    && (forall i :: 0 <= i < |tries| ==> AttemptWent(s, req, before, tries, i))
    && forall i :: 0 <= i < |tries| - 1 ==> !EndsSearch(ResultOf(s, req, tries, i))
  }

  /** What a search comes to: the last attempt's result, with its protocol adopted if it settled it;
      or, after all four, nothing. */
  ghost predicate SearchGives(s: Settings, req: Input.HexRequest, tries: seq<Attempt>, o: Outcome, s': Settings,
                              log: seq<CanFrame>) {
    0 < |tries| <= |SEARCH_ORDER|
    && var last := |tries| - 1; var r := ResultOf(s, req, tries, last);
       if EndsSearch(r) then
         o == r && log == LogOf(ContextOf(s, SEARCH_ORDER[last], req), tries[last].course)
         && s' == if Settles(r) then Adopted(s, SEARCH_ORDER[last]) else s
       else
         |tries| == |SEARCH_ORDER| && log == [] && s' == s
         && o == if forall i :: 0 <= i < |tries| ==> ResultOf(s, req, tries, i) == Blocked then Blocked else UnableToConnect
  }

  predicate OnlyJudged(es: seq<Event>) { forall e :: e in es ==> e.Judged? }

  /** The bus and the link as they were, but for what was offered to the guard. */
  ghost predicate Untouched(hal: Hal, link: LinkState, trace: seq<Event>, mode: Option<CanMode>, open: bool, rate: Bitrate,
                            talk: Talk)
    reads hal`trace, hal`mode, link
  {
    trace <= hal.trace && OnlyJudged(hal.trace[|trace|..]) && hal.mode == mode
    && link.open == open && link.rate == rate && link.talk == talk
  }

  /** One protocol of the search. */
  method TryProtocol(hal: Hal, guard: Guard, link: LinkState, s: Settings, i: nat, req: Input.HexRequest, log: RxLog,
                     ghost trace: seq<Event>, ghost mode: Option<CanMode>, ghost open: bool, ghost rate: Bitrate, ghost talk: Talk)
    returns (o: Outcome, ghost course: Course)
    requires World(hal, guard, link) && AtPrompt(hal) && log.Valid() && i < |SEARCH_ORDER|
    modifies hal.Repr(), guard.Repr(), link, log, log.frames
    ensures World(hal, guard, link) && AtPrompt(hal) && SameSession(hal) && log.Valid()
    ensures var ctx := ContextOf(s, SEARCH_ORDER[i], req);
      Went(ctx, RequestFrame(s, SEARCH_ORDER[i], req.bytes), old(hal.trace), hal.trace, course)
      && o == OutcomeOf(ctx, course) && log.Contents() == LogOf(ctx, course)
    ensures if o == Stopped then old(hal.sum.interrupts) < hal.sum.interrupts
            else hal.sum.interrupts == old(hal.sum.interrupts)
    ensures old(!CanBeSearched(guard.history, s, req) && Untouched(hal, link, trace, mode, open, rate, talk)) ==>
      o == Blocked && !CanBeSearched(guard.history, s, req) && Untouched(hal, link, trace, mode, open, rate, talk)
  {
    hide Hal.Valid, Guard.Valid, RequestFrame, CanBeSearched, RxLog.Valid, RxLog.Contents, Passes, Went, LogOf, OutcomeOf,
         LinkState.Agrees, Summary;
    var p := SEARCH_ORDER[i];
    ghost var blocked := !CanBeSearched(guard.history, s, req);
    OfferKeepsSearch(guard.history, s, req, p);
    if blocked { NotSearchable(guard.history, s, req, i); }
    ghost var before := hal.trace;
    SumIsSummary(hal);
    o, course := Converse(hal, guard, link, s, p, req, log);
    if blocked {
      SumIsSummary(hal);
      OfferedHistory(before, RequestFrame(s, p, req.bytes));
    }
  }

  lemma OfferedHistory(before: seq<Event>, f: CanFrame)
    ensures Summary(before + [Judged(f)]).history == Summary(before).history + [Offered(f)]
  {
    SummaryNext(before, Judged(f));
  }

  lemma NotSearchable(h: History, s: Settings, req: Input.HexRequest, i: nat)
    requires i < |SEARCH_ORDER| && !CanBeSearched(h, s, req)
    ensures !Passes(h, RequestFrame(s, SEARCH_ORDER[i], req.bytes))
  {
    hide Passes, RequestFrame;
  }

  /** Tries the four CAN protocols in turn. Main result: the protocol adopted is the one whose attempt
      brought the answer, and the outcome and the log are that attempt's; when the pre-check says no,
      the search does nothing on the bus, keeps the protocol setting, and says Blocked. */
  method Search(hal: Hal, guard: Guard, link: LinkState, s: Settings, req: Input.HexRequest, log: RxLog)
    returns (o: Outcome, s': Settings, ghost tries: seq<Attempt>)
    requires World(hal, guard, link) && AtPrompt(hal) && log.Valid()
    modifies hal.Repr(), guard.Repr(), link, log, log.frames
    ensures World(hal, guard, link) && AtPrompt(hal) && SameSession(hal) && log.Valid()
    ensures TriedInOrder(s, req, old(hal.trace), tries) && SearchGives(s, req, tries, o, s', log.Contents())
    ensures hal.trace == tries[|tries| - 1].after
    ensures if o == Stopped then old(hal.sum.interrupts) < hal.sum.interrupts
            else hal.sum.interrupts == old(hal.sum.interrupts)
    ensures !CanBeSearched(old(guard.history), s, req) ==>
      o == Blocked && s' == s
      && Untouched(hal, link, old(hal.trace), old(hal.mode), old(link.open), old(link.rate), old(link.talk))
  {
    hide Hal.Valid, Guard.Valid, World, CanBeSearched, Untouched, RxLog.Valid, RxLog.Contents, AttemptWent, ResultOf, Went,
         LogOf, OutcomeOf, RequestFrame, ContextOf, TriedInOrder, SearchGives, Adopted, SoFar, SomeTried;
    ghost var mine: set<object> := {log, log.frames};
    assert mine !! hal.Repr();
    s', tries := s, [];
    var tried := false;
    ghost var blocked := !CanBeSearched(guard.history, s, req);
    ghost var trace, mode, open, rate, talk := hal.trace, hal.mode, link.open, link.rate, link.talk;
    NothingTried(s, req, trace);
    UntouchedYet(hal, link);
    for i := 0 to |SEARCH_ORDER|
      invariant World(hal, guard, link) && AtPrompt(hal) && SameSession(hal) && log.Valid()
      invariant hal.sum.interrupts == old(hal.sum.interrupts)
      invariant |tries| == i && SoFar(s, req, trace, tries, hal.trace) && (tried <==> SomeTried(s, req, tries))
      invariant blocked ==>
        !tried && !CanBeSearched(guard.history, s, req) && Untouched(hal, link, trace, mode, open, rate, talk)
    {
      ghost var course;
      ghost var before := hal.trace;
      o, course := TryProtocol(hal, guard, link, s, i, req, log, trace, mode, open, rate, talk);
      OneMoreTry(s, req, trace, before, tries, Attempt(course, hal.trace));
      tries := tries + [Attempt(course, hal.trace)];
      if EndsSearch(o) {
        s' := if Settles(o) then Adopted(s, SEARCH_ORDER[i]) else s;
        SearchEnds(s, req, tries, o, s', log.Contents());
        return;
      }
      if o != Blocked { tried := true; }
    }
    log.Clear();
    o := if tried then UnableToConnect else Blocked;
    SearchFails(s, req, trace, hal.trace, tries, o);
  }

  /** Some attempts, none of which ended the search; `now` is the record after them. */
  ghost predicate SoFar(s: Settings, req: Input.HexRequest, start: seq<Event>, tries: seq<Attempt>, now: seq<Event>) {
    TriedInOrder(s, req, start, tries) && now == (if tries == [] then start else tries[|tries| - 1].after)
    && forall k :: 0 <= k < |tries| ==> !EndsSearch(ResultOf(s, req, tries, k))
  }

  predicate SomeTried(s: Settings, req: Input.HexRequest, tries: seq<Attempt>) {
    exists k :: 0 <= k < |tries| && k < |SEARCH_ORDER| && ResultOf(s, req, tries, k) != Blocked
  }

  lemma NothingTried(s: Settings, req: Input.HexRequest, start: seq<Event>)
    ensures SoFar(s, req, start, [], start) && !SomeTried(s, req, [])
  {
  }

  lemma SearchEnds(s: Settings, req: Input.HexRequest, tries: seq<Attempt>, o: Outcome, s': Settings, log: seq<CanFrame>)
    requires 0 < |tries| <= |SEARCH_ORDER| && ResultOf(s, req, tries, |tries| - 1) == o && EndsSearch(o)
    requires log == LogOf(ContextOf(s, SEARCH_ORDER[|tries| - 1], req), tries[|tries| - 1].course)
    requires s' == if Settles(o) then Adopted(s, SEARCH_ORDER[|tries| - 1]) else s
    ensures SearchGives(s, req, tries, o, s', log)
  {
    hide LogOf, OutcomeOf, ContextOf, Adopted;
  }

  lemma SearchFails(s: Settings, req: Input.HexRequest, start: seq<Event>, now: seq<Event>, tries: seq<Attempt>, o: Outcome)
    requires |tries| == |SEARCH_ORDER| && SoFar(s, req, start, tries, now)
    requires o == if SomeTried(s, req, tries) then UnableToConnect else Blocked
    ensures SearchGives(s, req, tries, o, s, []) && TriedInOrder(s, req, start, tries) && now == tries[|tries| - 1].after
  {
    hide LogOf, ResultOf, ContextOf, Adopted, TriedInOrder;
  }

  lemma UntouchedYet(hal: Hal, link: LinkState)
    ensures Untouched(hal, link, hal.trace, hal.mode, link.open, link.rate, link.talk)
  {
    assert hal.trace[|hal.trace|..] == [];
  }

  lemma OneMoreTry(s: Settings, req: Input.HexRequest, start: seq<Event>, before: seq<Event>, tries: seq<Attempt>, a: Attempt)
    requires |tries| < |SEARCH_ORDER| && SoFar(s, req, start, tries, before)
    requires var p := SEARCH_ORDER[|tries|];
      Went(ContextOf(s, p, req), RequestFrame(s, p, req.bytes), before, a.after, a.course)
    ensures var all := tries + [a]; var o := OutcomeOf(ContextOf(s, SEARCH_ORDER[|tries|], req), a.course);
      TriedInOrder(s, req, start, all) && ResultOf(s, req, all, |tries|) == o
      && (!EndsSearch(o) ==> SoFar(s, req, start, all, a.after))
      && (SomeTried(s, req, all) <==> SomeTried(s, req, tries) || o != Blocked)
  {
    hide Went, OutcomeOf, RequestFrame, ContextOf;
    var all := tries + [a];
    forall i | 0 <= i < |tries|
      ensures AttemptWent(s, req, start, all, i) && ResultOf(s, req, all, i) == ResultOf(s, req, tries, i) {
      assert all[i] == tries[i] && AttemptWent(s, req, start, tries, i);
    }
    assert AttemptWent(s, req, start, all, |tries|);
    assert ResultOf(s, req, all, |tries|) == OutcomeOf(ContextOf(s, SEARCH_ORDER[|tries|], req), a.course);
  }

  // ---------- Survey ----------

  datatype RateReport = RateReport(setupFailed: bool, frames: nat, errors: nat)

  const NOTHING_FOUND := RateReport(false, 0, 0)

  function Gathered(known: seq<CanId>, ids: seq<CanId>, capacity: nat): seq<CanId> {
    if ids == [] then known else WithId(Gathered(known, ids[..|ids| - 1], capacity), ids[|ids| - 1], capacity)
  }

  lemma GatheredNext(known: seq<CanId>, fs: seq<CanFrame>, f: CanFrame, capacity: nat)
    ensures Gathered(known, IdsOf(fs + [f]), capacity) == WithId(Gathered(known, IdsOf(fs), capacity), f.id, capacity)
  {
    IdsNext(fs, f);
    assert (IdsOf(fs) + [f.id])[..|IdsOf(fs)|] == IdsOf(fs);
  }

  /** The record of one rate of a survey: the controller refused, or it listened for the window, or
      until a byte came; then its counters were read. It ends off the bus. The report counts the
      frames received, lists their distinct ids, up to the list's capacity, and adds up the errors. */
  predicate SurveyShows(es: seq<Event>, rate: Bitrate, windowMs: uint16, finished: bool, r: RateReport, ids: seq<CanId>,
                        capacity: nat) {
    if r.setupFailed then
      es == [Closed, Opened(rate, ListenOnly, ACCEPT_ALL, false), Closed] && finished && r.frames == r.errors == 0 && ids == []
    else
      5 <= |es| && es[..2] == [Closed, Opened(rate, ListenOnly, ACCEPT_ALL, true)] && es[2].Clock?
      && es[|es| - 2].Health? && es[|es| - 1] == Closed
      && r.errors == es[|es| - 2].health.errorEvents + es[|es| - 2].health.rec
      && var heard := ListenRun(After(es[2].now, windowMs), es[3..|es| - 2]);
         heard.at == Woken(if finished then TimedOut else Interrupted)
         && r.frames == |heard.frames| && ids == Gathered([], IdsOf(heard.frames), capacity)
  }

  /** Listens at one rate; every id goes to the guard. */
  method SurveyRate(hal: Hal, guard: Guard, link: LinkState, rate: Bitrate, windowMs: uint16, ids: SeenIds)
    returns (finished: bool, report: RateReport, ghost es: seq<Event>)
    requires World(hal, guard, link) && !link.open && ids.Valid() && ids.Contents() == []
    requires ids.ids != guard.heard.ids && ids != guard.heard
    modifies hal.Repr(), guard.Repr(), ids, ids.ids
    ensures World(hal, guard, link) && hal.mode == None && Sentless(hal) && ids.Valid()
    ensures hal.trace == old(hal.trace) + es
    ensures SurveyShows(es, rate, windowMs, finished, report, ids.Contents(), ids.ids.Length)
    ensures if finished then hal.sum.interrupts == old(hal.sum.interrupts) else old(hal.sum.interrupts) < hal.sum.interrupts
  {
    hide Hal.Valid, Guard.Valid, SeenIds.Valid, SeenIds.Contents, Core, SurveyShows;
    assert Core(hal, guard);
    finished, report, es := SurveyOffLink(hal, guard, rate, windowMs, ids);
    assert World(hal, guard, link) by { ClosedAgrees(hal, guard, link); }
  }

  lemma ClosedAgrees(hal: Hal, guard: Guard, link: LinkState)
    requires Core(hal, guard) && !link.open && link.talk != Allowed
    ensures World(hal, guard, link)
  {
    hide Core;
  }

  /** The same, without a link that could be affected. */
  method SurveyOffLink(hal: Hal, guard: Guard, rate: Bitrate, windowMs: uint16, ids: SeenIds)
    returns (finished: bool, report: RateReport, ghost es: seq<Event>)
    requires Core(hal, guard) && ids.Valid() && ids.Contents() == []
    requires ids.ids != guard.heard.ids && ids != guard.heard
    modifies hal.Repr(), guard.Repr(), ids, ids.ids
    ensures Core(hal, guard) && hal.mode == None && Sentless(hal) && ids.Valid()
    ensures hal.trace == old(hal.trace) + es
    ensures SurveyShows(es, rate, windowMs, finished, report, ids.Contents(), ids.ids.Length)
    ensures if finished then hal.sum.interrupts == old(hal.sum.interrupts) else old(hal.sum.interrupts) < hal.sum.interrupts
  {
    hide Hal.Valid, Guard.Valid, SeenIds.Valid, SeenIds.Contents, Next, SurveyShows;
    ghost var apart: set<object> := {guard, guard.heard, guard.heard.ids, ids, ids.ids};
    assert apart !! hal.Repr();
    report := NOTHING_FOUND;
    ghost var before := hal.trace;
    hal.CanClose();
    var ok := hal.CanOpen(rate, ListenOnly, ACCEPT_ALL);
    if !ok {
      hal.CanClose();
      es := [Closed, Opened(rate, ListenOnly, ACCEPT_ALL, false), Closed];
      SurveyRefused(rate, windowMs, ids.ids.Length);
      assert hal.trace == before + es;
      return true, report.(setupFailed := true), es;
    }
    finished, report, es := SurveyListening(hal, guard, rate, windowMs, ids, before);
  }

  /** On a controller just opened: the window, its counters, and off the bus. */
  method SurveyListening(hal: Hal, guard: Guard, ghost rate: Bitrate, windowMs: uint16, ids: SeenIds, ghost before: seq<Event>)
    returns (finished: bool, report: RateReport, ghost es: seq<Event>)
    requires Core(hal, guard) && hal.mode == Some(ListenOnly) && ids.Valid() && ids.Contents() == []
    requires hal.trace == before + [Closed] + [Opened(rate, ListenOnly, ACCEPT_ALL, true)]
    requires ids.ids != guard.heard.ids && ids != guard.heard
    modifies hal.Repr(), guard.Repr(), ids, ids.ids
    ensures Core(hal, guard) && hal.mode == None && Sentless(hal) && ids.Valid()
    ensures hal.trace == before + es
    ensures SurveyShows(es, rate, windowMs, finished, report, ids.Contents(), ids.ids.Length)
    ensures if finished then hal.sum.interrupts == old(hal.sum.interrupts) else old(hal.sum.interrupts) < hal.sum.interrupts
  {
    hide Hal.Valid, Guard.Valid, SeenIds.Valid, SeenIds.Contents, Next, SurveyShows, ListenRun, Gathered, IdsOf;
    ghost var apart: set<object> := {guard, guard.heard, guard.heard.ids, ids, ids.ids};
    assert apart !! hal.Repr();
    var frames;
    ghost var start, heard;
    finished, frames, start, heard := SurveyWindow(hal, guard, windowMs, ids);
    var h := hal.CanHealthNow();
    report := NOTHING_FOUND.(frames := frames, errors := h.errorEvents + h.rec);
    hal.CanClose();
    es := SurveyEvents(rate, start, heard, h);
    SurveyHeard(rate, windowMs, start, heard, h, finished, report, ids.Contents(), ids.ids.Length);
    SurveyJoins(before, rate, start, heard, h);
  }

  lemma SurveyJoins(before: seq<Event>, rate: Bitrate, start: uint32, heard: seq<Event>, h: CanHealth)
    ensures before + [Closed] + [Opened(rate, ListenOnly, ACCEPT_ALL, true)] + ([Clock(start)] + heard) + [Health(h)] + [Closed]
      == before + SurveyEvents(rate, start, heard, h)
  {
  }

  lemma SurveyRefused(rate: Bitrate, windowMs: uint16, capacity: nat)
    ensures SurveyShows([Closed, Opened(rate, ListenOnly, ACCEPT_ALL, false), Closed], rate, windowMs, true,
                        NOTHING_FOUND.(setupFailed := true), [], capacity)
  {
  }

  function SurveyEvents(rate: Bitrate, start: uint32, heard: seq<Event>, h: CanHealth): seq<Event> {
    [Closed, Opened(rate, ListenOnly, ACCEPT_ALL, true)] + ([Clock(start)] + heard) + [Health(h), Closed]
  }

  lemma SurveyHeard(rate: Bitrate, windowMs: uint16, start: uint32, heard: seq<Event>, h: CanHealth, finished: bool,
                    r: RateReport, ids: seq<CanId>, capacity: nat)
    requires var l := ListenRun(After(start, windowMs), heard);
      l.at == Woken(if finished then TimedOut else Interrupted) && r.frames == |l.frames|
      && ids == Gathered([], IdsOf(l.frames), capacity)
    requires !r.setupFailed && r.errors == h.errorEvents + h.rec
    ensures SurveyShows(SurveyEvents(rate, start, heard, h), rate, windowMs, finished, r, ids, capacity)
  {
    hide ListenRun, Gathered, IdsOf;
    var es := SurveyEvents(rate, start, heard, h);
    assert es[3..|es| - 2] == heard;
  }

  method SurveyWindow(hal: Hal, guard: Guard, windowMs: uint16, ids: SeenIds)
    returns (finished: bool, frames: nat, ghost start: uint32, ghost es: seq<Event>)
    requires Core(hal, guard) && hal.mode == Some(ListenOnly) && ids.Valid() && ids.Contents() == []
    requires ids.ids != guard.heard.ids && ids != guard.heard
    modifies hal.Repr(), guard.Repr(), ids, ids.ids
    ensures Core(hal, guard) && Sentless(hal) && hal.Kept() && ids.Valid()
    ensures hal.trace == old(hal.trace) + ([Clock(start)] + es)
    ensures var heard := ListenRun(After(start, windowMs), es);
      heard.at == Woken(if finished then TimedOut else Interrupted) && frames == |heard.frames|
      && ids.Contents() == Gathered([], IdsOf(heard.frames), ids.ids.Length)
    ensures if finished then hal.sum.interrupts == old(hal.sum.interrupts) else old(hal.sum.interrupts) < hal.sum.interrupts
  {
    hide Hal.Valid, Guard.Valid, SeenIds.Valid, SeenIds.Contents, Next, Gathered, IdsOf, ListenRun, AwaitRun, Core;
    ghost var apart: set<object> := {guard, guard.heard, guard.heard.ids, ids, ids.ids};
    assert apart !! hal.Repr();
    var now := ReadTime(hal, guard);
    start, frames, es := now, 0, [];
    var d := After(now, windowMs);
    NothingListened(d);
    NothingGathered(ids.ids.Length);
    while true
      invariant Core(hal, guard) && hal.mode == Some(ListenOnly) && Sentless(hal) && hal.Kept() && ids.Valid()
      invariant hal.trace == old(hal.trace) + ([Clock(start)] + es) && hal.sum.interrupts == old(hal.sum.interrupts)
      invariant ListenRun(d, es).at == Look && frames == |ListenRun(d, es).frames|
      invariant ids.Contents() == Gathered([], IdsOf(ListenRun(d, es).frames), ids.ids.Length)
      decreases |hal.script|
    {
      ghost var fs := ListenRun(d, es).frames;
      var w;
      ghost var wait;
      w, wait := HearOne(hal, guard, d);
      ListenJoins(d, es, wait);
      assert old(hal.trace) + ([Clock(start)] + es) + wait == old(hal.trace) + ([Clock(start)] + (es + wait));
      es := es + wait;
      if !w.GotFrame? { return w == TimedOut, frames, start, es; }
      GatheredNext([], fs, w.frame, ids.ids.Length);
      var _ := ids.Add(w.frame.id);
      frames := frames + 1;
    }
  }

  lemma NothingGathered(capacity: nat)
    ensures Gathered([], IdsOf([]), capacity) == []
  {
  }

  method ReadTime(hal: Hal, guard: Guard) returns (now: uint32)
    requires Core(hal, guard)
    modifies hal
    ensures Core(hal, guard) && hal.Kept() && hal.trace == old(hal.trace) + [Clock(now)] && hal.sum == old(hal.sum)
  {
    hide Hal.Valid, Guard.Valid, Next;
    now := hal.NowMs();
  }

  // ---------- The loopback probe ----------

  datatype LoopbackResult = Pass | Fail | SetupFailed | LoopInterrupted

  const LOOPBACK_WAIT_MS := 50

  function ProbeFrame(): CanFrame { Frame(Std11(0x745), [0x02, 0x10, 0xC0, 0, 0, 0, 0, 0]) }

  function ProbeEvent(rate: Bitrate, ok: bool, onTcp: bool): Event {
    SendTried(ProbeFrame(), Probe, Some(Loopback), rate, ok, onTcp)
  }

  /** How a probe shows: withheld; or sent, and refused by the controller; or sent, and waited for:
      a pass exactly if the first thing to come back within 50 ms was the probe itself. */
  datatype ProbeCourse =
    | ProbeWithheld
    | ProbeFailed(onTcp: bool)
    | ProbeAwaited(onTcp: bool, start: uint32, wait: seq<Event>)

  function ProbeEvents(rate: Bitrate, c: ProbeCourse): seq<Event> {
    match c
    case ProbeWithheld => [Judged(ProbeFrame()), Withheld]
    case ProbeFailed(onTcp) => [Judged(ProbeFrame()), ProbeEvent(rate, false, onTcp)]
    case ProbeAwaited(onTcp, start, wait) => [Judged(ProbeFrame()), ProbeEvent(rate, true, onTcp), Clock(start)] + wait
  }

  predicate ProbeGives(c: ProbeCourse, r: LoopbackResult) {
    if !c.ProbeAwaited? then r == Fail
    else
      var a := AwaitRun(After(c.start, LOOPBACK_WAIT_MS), Some(Loopback), c.wait);
      a.Woken? && r == LoopbackOf(a.wake)
  }

  function LoopbackOf(w: Wake): LoopbackResult {
    match w
    case Interrupted => LoopInterrupted
    case TimedOut => Fail
    case GotFrame(f) => if f == ProbeFrame() then Pass else Fail
  }

  /** The record of one round trip, in loopback mode from start to end: nothing of it is on the bus. */
  predicate LoopShows(es: seq<Event>, rate: Bitrate, r: LoopbackResult, c: ProbeCourse) {
    if r == SetupFailed then es == [Closed, Opened(rate, Loopback, ACCEPT_ALL, false)]
    else ProbeGives(c, r) && es == [Closed, Opened(rate, Loopback, ACCEPT_ALL, true)] + ProbeEvents(rate, c) + [Closed]
  }

  method LoopbackRoundTrip(hal: Hal, guard: Guard, link: LinkState, rate: Bitrate)
    returns (result: LoopbackResult, ghost es: seq<Event>, ghost c: ProbeCourse)
    requires World(hal, guard, link) && !link.open
    modifies hal.Repr(), guard.Repr()
    ensures World(hal, guard, link) && hal.mode == None && SameSession(hal)
    ensures hal.trace == old(hal.trace) + es && LoopShows(es, rate, result, c)
    ensures if result == LoopInterrupted then old(hal.sum.interrupts) < hal.sum.interrupts
            else hal.sum.interrupts == old(hal.sum.interrupts)
  {
    hide Hal.Valid, Guard.Valid, Next, Core, LoopShows;
    assert Core(hal, guard);
    result, es, c := LoopbackOffLink(hal, guard, rate);
    assert World(hal, guard, link) by { ClosedAgrees(hal, guard, link); }
  }

  method LoopbackOffLink(hal: Hal, guard: Guard, rate: Bitrate)
    returns (result: LoopbackResult, ghost es: seq<Event>, ghost c: ProbeCourse)
    requires Core(hal, guard)
    modifies hal.Repr(), guard.Repr()
    ensures Core(hal, guard) && hal.mode == None && SameSession(hal)
    ensures hal.trace == old(hal.trace) + es && LoopShows(es, rate, result, c)
    ensures if result == LoopInterrupted then old(hal.sum.interrupts) < hal.sum.interrupts
            else hal.sum.interrupts == old(hal.sum.interrupts)
  {
    hide Hal.Valid, Guard.Valid, Next, ProbeGives, ProbeEvents, ProbeFrame;
    ghost var before := hal.trace;
    hal.CanClose();
    var ok := hal.CanOpen(rate, Loopback, ACCEPT_ALL);
    c := ProbeWithheld;
    if !ok {
      es := [Closed, Opened(rate, Loopback, ACCEPT_ALL, false)];
      assert hal.trace == before + es;
      return SetupFailed, es, c;
    }
    result, c := SendProbe(hal, guard);
    hal.CanClose();
    es := [Closed, Opened(rate, Loopback, ACCEPT_ALL, true)] + ProbeEvents(rate, c) + [Closed];
    assert hal.trace == before + es;
  }

  method SendProbe(hal: Hal, guard: Guard) returns (result: LoopbackResult, ghost c: ProbeCourse)
    requires Core(hal, guard) && hal.mode == Some(Loopback)
    modifies hal.Repr(), guard.Repr()
    ensures Core(hal, guard) && SameSession(hal)
    ensures hal.trace == old(hal.trace) + ProbeEvents(hal.rate, c) && ProbeGives(c, result) && result != SetupFailed
    ensures hal.rate == old(hal.rate)
    ensures if result == LoopInterrupted then old(hal.sum.interrupts) < hal.sum.interrupts
            else hal.sum.interrupts == old(hal.sum.interrupts)
  {
    hide Hal.Valid, Guard.Valid, ProbeFrame, Passes, AwaitRun, LoopbackOf, ProbeEvents, ProbeEvent, Core;
    ghost var before := hal.trace;
    var cleared := Judge(hal, guard, ProbeFrame());
    ghost var onTcp := hal.sum.session.onTcp;
    var sent := TryProbe(hal, guard, cleared);
    if !sent {
      c := if cleared.Cleared? then ProbeFailed(onTcp) else ProbeWithheld;
      ProbeOnRecord(before, hal.rate, c, 0, []);
      return Fail, c;
    }
    ghost var start, wait;
    result, start, wait := AwaitEcho(hal, guard);
    c := ProbeAwaited(onTcp, start, wait);
    ProbeOnRecord(before, hal.rate, c, start, wait);
  }

  lemma ProbeOnRecord(before: seq<Event>, rate: Bitrate, c: ProbeCourse, start: uint32, wait: seq<Event>)
    ensures c.ProbeWithheld? ==> before + [Judged(ProbeFrame())] + [Withheld] == before + ProbeEvents(rate, c)
    ensures c.ProbeFailed? ==>
      before + [Judged(ProbeFrame())] + [ProbeEvent(rate, false, c.onTcp)] == before + ProbeEvents(rate, c)
    ensures c.ProbeAwaited? && c.start == start && c.wait == wait ==>
      before + [Judged(ProbeFrame())] + [ProbeEvent(rate, true, c.onTcp)] + ([Clock(start)] + wait) == before + ProbeEvents(rate, c)
  {
    hide ProbeFrame;
  }

  method TryProbe(hal: Hal, guard: Guard, cleared: ClearedFrame) returns (sent: bool)
    requires Core(hal, guard) && hal.mode == Some(Loopback) && (cleared.Cleared? ==> cleared.frame == ProbeFrame())
    requires Ends(hal.trace, Judged(ProbeFrame())) && (cleared.Cleared? <==> Passes(guard.history, ProbeFrame()))
    modifies hal
    ensures Core(hal, guard) && SameSession(hal) && hal.mode == old(hal.mode) && hal.rate == old(hal.rate)
    ensures hal.sum.interrupts == old(hal.sum.interrupts) && (sent ==> cleared.Cleared?)
    ensures hal.trace == old(hal.trace)
      + [if cleared.Cleared? then ProbeEvent(hal.rate, sent, hal.sum.session.onTcp) else Withheld]
  {
    hide Hal.Valid, Guard.Valid, ProbeFrame, Passes, Promised;
    if cleared.Cleared? { MayGoOut(hal, guard, ProbeFrame(), Probe); } else { WithheldRightly(hal, guard, ProbeFrame()); }
    sent := hal.CanSend(cleared, Probe);
  }

  /** What comes back within 50 ms. */
  method AwaitEcho(hal: Hal, guard: Guard) returns (result: LoopbackResult, ghost start: uint32, ghost wait: seq<Event>)
    requires Core(hal, guard) && hal.mode == Some(Loopback)
    modifies hal.Repr()
    ensures Core(hal, guard) && SameSession(hal) && hal.rate == old(hal.rate)
    ensures hal.trace == old(hal.trace) + ([Clock(start)] + wait)
    ensures ProbeGives(ProbeAwaited(false, start, wait), result) && result != SetupFailed
    ensures if result == LoopInterrupted then old(hal.sum.interrupts) < hal.sum.interrupts
            else hal.sum.interrupts == old(hal.sum.interrupts)
  {
    hide Hal.Valid, Guard.Valid, AwaitRun, ProbeFrame;
    var now := ReadTime(hal, guard);
    start := now;
    var w;
    w, wait := Await(hal, After(now, LOOPBACK_WAIT_MS));
    if w == Interrupted { return LoopInterrupted, start, wait; }
    result := if w.GotFrame? && w.frame == ProbeFrame() then Pass else Fail;
  }
}
