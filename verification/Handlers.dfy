/** The handlers behind the commands (lib/elm/src/elm.cpp): printing, monitoring, the survey and the
    self-test, on the controller and the session's output. */
module Handlers {
  import opened CanTypes
  import opened Config
  import opened WriteGuard
  import opened Bus
  import opened Record
  import opened Procedures
  import opened Replies
  import Text

  // ---------- Writing between commands ----------

  function Outputting(d: Digest, text: string): Digest { d.(session := d.session.(output := d.session.output + text)) }

  lemma WroteAdds(d: Digest, text: string, mode: Option<CanMode>)
    ensures Next(d, Wrote(text, mode)) == Outputting(d, text)
  {
  }

  lemma OutputJoins(d: Digest, a: string, b: string)
    ensures Outputting(Outputting(d, a), b) == Outputting(d, a + b)
  {
    assert d.session.output + a + b == d.session.output + (a + b);
  }

  lemma NothingOutput(d: Digest)
    ensures Outputting(d, "") == d
  {
    assert d.session.output + "" == d.session.output;
  }

  /** The record goes on with nothing but output. */
  predicate WroteOn(before: seq<Event>, after: seq<Event>) { before <= after && OnlyWrites(after, |before|, |after|) }

  /** Output was written, and nothing else happened. */
  twostate predicate OnlyWrote(hal: Hal, new text: string)
    reads hal`sum, hal`trace, hal`mode, hal`rate, hal`vouched, hal`script
  {
    hal.sum == Outputting(old(hal.sum), text) && WroteOn(old(hal.trace), hal.trace)
    && hal.mode == old(hal.mode) && hal.rate == old(hal.rate) && hal.vouched == old(hal.vouched)
    && |hal.script| <= |old(hal.script)|
  }

  /** The session goes on as it was, with some more output. */
  predicate SameButOutput(s: Session, s': Session) { s' == s.(output := s'.output) && s.output <= s'.output }

  /** What the handlers keep: everything about the session but what was written. */
  twostate predicate SameControl(hal: Hal)
    reads hal`sum, hal`trace, hal`script
  {
    SameButOutput(old(hal.sum.session), hal.sum.session) && old(hal.trace) <= hal.trace && |hal.script| <= |old(hal.script)|
  }

  method WriteText(hal: Hal, guard: Guard, link: LinkState, text: string)
    requires World(hal, guard, link) && AtPrompt(hal)
    modifies hal.Repr()
    ensures World(hal, guard, link) && AtPrompt(hal) && OnlyWrote(hal, text)
    ensures hal.trace == old(hal.trace) + [Wrote(text, hal.mode)]
  {
    hide Hal.Valid, Guard.Valid, Next;
    WroteAdds(hal.sum, text, hal.mode);
    hal.Write(text);
  }

  method Print(hal: Hal, guard: Guard, link: LinkState, line: string, end: string)
    requires World(hal, guard, link) && AtPrompt(hal)
    modifies hal.Repr()
    ensures World(hal, guard, link) && AtPrompt(hal) && OnlyWrote(hal, line + end)
  {
    hide Hal.Valid, Guard.Valid, World, Outputting;
    OutputJoins(hal.sum, line, end);
    WriteText(hal, guard, link, line);
    WriteText(hal, guard, link, end);
  }

  method PrintLines(hal: Hal, guard: Guard, link: LinkState, lines: seq<string>, end: string)
    requires World(hal, guard, link) && AtPrompt(hal)
    modifies hal.Repr()
    ensures World(hal, guard, link) && AtPrompt(hal) && OnlyWrote(hal, Rendered(lines, end))
  {
    hide Hal.Valid, Guard.Valid, World, Rendered, Outputting;
    ghost var before := hal.sum;
    NothingRendered("", end);
    NothingOutput(before);
    for i := 0 to |lines|
      invariant World(hal, guard, link) && AtPrompt(hal) && OnlyWrote(hal, Rendered(lines[..i], end))
    {
      Print(hal, guard, link, lines[i], end);
      OutputJoins(before, Rendered(lines[..i], end), lines[i] + end);
      RenderedNext(lines[..i], lines[i], end);
      assert lines[..i] + [lines[i]] == lines[..i + 1];
      assert Rendered(lines[..i], end) + (lines[i] + end) == Rendered(lines[..i + 1], end);
    }
    assert lines[..|lines|] == lines;
  }

  /** One frame, with the countdown that the frames `fs` before it left. */
  method PrintFrame(hal: Hal, guard: Guard, link: LinkState, fmt: Text.FrameFormatter, ghost fs: seq<CanFrame>, f: CanFrame)
    requires World(hal, guard, link) && AtPrompt(hal) && fmt.Valid() && fmt.table.Rows() == TableAfter(fmt.s, fs)
    requires {fmt.table, fmt.table.entries} !! hal.Repr() + guard.Repr() + {link}
    modifies hal.Repr(), fmt.table, fmt.table.entries
    ensures World(hal, guard, link) && AtPrompt(hal) && fmt.Valid() && fmt.table.Rows() == TableAfter(fmt.s, fs + [f])
    ensures OnlyWrote(hal, Rendered(Text.Lines(fmt.s, fmt.monitor, TableAfter(fmt.s, fs), f), LineEnd(fmt.s)))
  {
    hide Hal.Valid, Guard.Valid, World, Rendered, Screen, TableAfter, Text.Lines, Text.ShowPayload;
    var lines := fmt.Format(f);
    ShownNext(fmt.s, fmt.monitor, fs, f, LineEnd(fmt.s));
    PrintLines(hal, guard, link, lines, LineEnd(fmt.s));
  }

  /** Every frame of the log, as the settings show it. */
  method PrintFrames(hal: Hal, guard: Guard, link: LinkState, s: Settings, log: RxLog)
    requires World(hal, guard, link) && AtPrompt(hal) && log.Valid() && {log, log.frames} !! hal.Repr()
    modifies hal.Repr()
    ensures World(hal, guard, link) && AtPrompt(hal)
    ensures OnlyWrote(hal, Rendered(Screen(s, false, log.Contents()), LineEnd(s)))
  {
    hide Hal.Valid, Guard.Valid, World, Rendered, Screen, TableAfter, Text.Lines, Text.CountdownTable.Rows, RxLog.Contents,
         Outputting;
    var fmt := new Text.FrameFormatter(s, false);
    ghost var own: set<object> := {fmt.table, fmt.table.entries};
    assert own !! hal.Repr() + guard.Repr() + {link} + {log, log.frames};
    ghost var fs := log.Contents();
    ghost var before := hal.sum;
    NothingRendered("", LineEnd(s));
    NothingShown(s, false);
    NothingOutput(before);
    for i := 0 to log.count
      invariant World(hal, guard, link) && AtPrompt(hal) && fmt.Valid() && log.Contents() == fs
      invariant fmt.table.Rows() == TableAfter(s, fs[..i])
      invariant OnlyWrote(hal, Rendered(Screen(s, false, fs[..i]), LineEnd(s)))
    {
      assert log.frames[i] == fs[i] by { LogAt(log, i); }
      PrintFrame(hal, guard, link, fmt, fs[..i], log.frames[i]);
      OutputJoins(before, Rendered(Screen(s, false, fs[..i]), LineEnd(s)),
                  Rendered(Text.Lines(s, false, TableAfter(s, fs[..i]), fs[i]), LineEnd(s)));
      ShownNext(s, false, fs[..i], fs[i], LineEnd(s));
      assert fs[..i] + [fs[i]] == fs[..i + 1];
    }
    assert fs[..|fs|] == fs;
  }

  lemma LogAt(log: RxLog, i: nat)
    requires log.Valid() && i < log.count
    ensures log.frames[i] == log.Contents()[i]
  {
  }

  // ---------- Monitoring ----------

  const BATCH := 256
  const MONITOR_FLUSH_MS := 10

  /** What of the frames received is to be shown, as text. */
  function Shown(s: Settings, acc: Acceptance, frames: seq<CanFrame>): string {
    Rendered(Screen(s, true, Accepted(acc, frames)), LineEnd(s))
  }

  /** Where the monitor stands: between two waits, in one, writing a batch whose time has come, about
      to push it out, interrupted, or somewhere no monitor can be. `flushAt` is when the batch goes. */
  datatype ViewAt = Between | InWait(wait: AwaitState) | Overdue | Written | Ended | NoView

  datatype View = View(frames: seq<CanFrame>, wrote: string, flushAt: Deadline, at: ViewAt)

  const NO_VIEW_YET := View([], "", Never, Between)

  /** What is written is the beginning of what is to be shown; no more than a batch is left, and
      exactly if something is left, its time is set. */
  predicate InTime(s: Settings, acc: Acceptance, v: View) {
    v.wrote <= Shown(s, acc, v.frames) && |Shown(s, acc, v.frames)| <= |v.wrote| + BATCH
    && (v.flushAt == Never <==> v.wrote == Shown(s, acc, v.frames))
  }

  function ViewAfter(v: View, a: AwaitState): View {
    match a
    case Woken(GotFrame(f)) => v.(frames := v.frames + [f], at := Between)
    case Woken(TimedOut) => v.(at := Overdue)
    case Woken(Interrupted) => v.(at := Ended)
    case Astray => v.(at := NoView)
    case _ => v.(at := InWait(a))
  }

  function ViewStep(s: Settings, acc: Acceptance, v: View, e: Event): View {
    match v.at
    case Between =>
      if e.Wrote? then v.(wrote := v.wrote + e.text)
      else if e.Clock? && v.flushAt == Never then v.(flushAt := After(e.now, MONITOR_FLUSH_MS))
      else if InTime(s, acc, v) then ViewAfter(v, AwaitStep(v.flushAt, Some(ListenOnly), Look, e))
      else v.(at := NoView)
    case InWait(a) => ViewAfter(v, AwaitStep(v.flushAt, Some(ListenOnly), a, e))
    case Overdue => if e.Wrote? then v.(wrote := v.wrote + e.text, flushAt := Never, at := Written) else v.(at := NoView)
    case Written => v.(at := if e.Flushed? then Between else NoView)
    case Ended => v.(at := NoView)
    case NoView => v
  }

  /** The monitor, event by event: one wait after the other, with nothing but output and the clock
      between them; a wait for a frame, or until the batch is 10 ms old. */
  function ViewRun(s: Settings, acc: Acceptance, es: seq<Event>): View {
    if es == [] then NO_VIEW_YET else ViewStep(s, acc, ViewRun(s, acc, es[..|es| - 1]), es[|es| - 1])
  }

  lemma ViewNext(s: Settings, acc: Acceptance, es: seq<Event>, e: Event)
    ensures ViewRun(s, acc, es + [e]) == ViewStep(s, acc, ViewRun(s, acc, es), e)
  {
    assert (es + [e])[..|es|] == es;
  }

  /** A complete wait takes the monitor to what it woke up to. */
  lemma {:induction false} ViewJoins(s: Settings, acc: Acceptance, es: seq<Event>, wait: seq<Event>)
    requires var v := ViewRun(s, acc, es); v.at == Between && InTime(s, acc, v)
    requires wait != [] && AwaitRun(ViewRun(s, acc, es).flushAt, Some(ListenOnly), wait) != Astray
    ensures var v := ViewRun(s, acc, es);
      ViewRun(s, acc, es + wait) == ViewAfter(v, AwaitRun(v.flushAt, Some(ListenOnly), wait))
    decreases |wait|
  {
    hide AwaitStep, InTime;
    var v, front, e := ViewRun(s, acc, es), wait[..|wait| - 1], wait[|wait| - 1];
    NotAstrayBefore(v.flushAt, Some(ListenOnly), wait);
    ViewNext(s, acc, es + front, e);
    assert es + wait == es + front + [e];
    if front == [] {
      assert es + front == es;
      WaitsForByte(v.flushAt, e);
    } else {
      ViewJoins(s, acc, es, front);
    }
  }

  lemma WaitsForByte(d: Deadline, e: Event)
    requires AwaitStep(d, Some(ListenOnly), Look, e) != Astray
    ensures !e.Wrote? && !e.Clock?
  {
  }

  /** Output between two waits. */
  lemma {:induction false} ViewWrites(s: Settings, acc: Acceptance, start: nat, before: seq<Event>, after: seq<Event>)
    returns (text: string)
    requires start <= |before| && WroteOn(before, after) && ViewRun(s, acc, before[start..]).at == Between
    ensures var v := ViewRun(s, acc, before[start..]); ViewRun(s, acc, after[start..]) == v.(wrote := v.wrote + text)
    ensures Summary(after) == Outputting(Summary(before), text)
    decreases |after|
  {
    hide Summary, Outputting, ViewStep;
    var v := ViewRun(s, acc, before[start..]);
    text := "";
    if |after| == |before| {
      assert after == before && v.wrote + "" == v.wrote;
      NothingOutput(Summary(before));
    } else {
      var front, e := after[..|after| - 1], after[|after| - 1];
      text := ViewWrites(s, acc, start, before, front);
      OutputJoins(Summary(before), text, e.text);
      assert v.wrote + text + e.text == v.wrote + (text + e.text);
      assert after == front + [e];
      assert after[start..] == front[start..] + [e];
      ViewNext(s, acc, front[start..], e);
      ViewWritesOne(s, acc, v.(wrote := v.wrote + text), e);
      SummaryNext(front, e);
      WroteAdds(Summary(front), e.text, e.wroteMode);
      AddedOnly(Summary(front), front, e);
      text := text + e.text;
    }
  }

  lemma ViewWritesOne(s: Settings, acc: Acceptance, v: View, e: Event)
    requires v.at == Between && e.Wrote?
    ensures ViewStep(s, acc, v, e) == v.(wrote := v.wrote + e.text)
  {
  }

  lemma AddedOnly(d: Digest, before: seq<Event>, e: Event)
    requires !e.Received?
    ensures Added(d, before, e) == Next(d, e)
  {
    hide Next;
  }

  /** The text is what was put out. */
  lemma ViewWrote(s: Settings, acc: Acceptance, start: nat, before: seq<Event>, after: seq<Event>, text: string)
    requires start <= |before| && WroteOn(before, after) && ViewRun(s, acc, before[start..]).at == Between
    requires Summary(after) == Outputting(Summary(before), text)
    ensures var v := ViewRun(s, acc, before[start..]); ViewRun(s, acc, after[start..]) == v.(wrote := v.wrote + text)
  {
    hide Summary, ViewRun;
    var put := ViewWrites(s, acc, start, before, after);
    var output := Summary(before).session.output;
    assert output + put == output + text;
    assert put == (output + put)[|output|..] == text;
  }

  predicate Short(lines: seq<string>) { forall i :: 0 <= i < |lines| ==> |lines[i]| < Text.LINE_MAX }

  /** Adds lines to the batch; when one does not fit, the batch is written out first. The 256-byte
      buffer never overflows. */
  method Collate(hal: Hal, guard: Guard, link: LinkState, lines: seq<string>, end: string, batch0: string)
    returns (batch: string, ghost wrote: string)
    requires World(hal, guard, link) && hal.mode == Some(ListenOnly) && Short(lines) && 1 <= |end| <= 2 && |batch0| <= BATCH
    modifies hal.Repr()
    ensures World(hal, guard, link) && OnlyWrote(hal, wrote)
    ensures wrote + batch == batch0 + Rendered(lines, end) && |batch| <= BATCH && (batch0 != "" ==> batch != "")
  {
    hide Hal.Valid, Guard.Valid, World, Rendered, Outputting;
    batch, wrote := batch0, "";
    NothingRendered(batch0, end);
    NothingOutput(hal.sum);
    for i := 0 to |lines|
      invariant World(hal, guard, link) && OnlyWrote(hal, wrote)
      invariant wrote + batch == batch0 + Rendered(lines[..i], end) && |batch| <= BATCH && (batch0 != "" ==> batch != "")
    {
      CollateNext(batch0, lines, i, end, wrote, batch);
      if |batch| + |lines[i]| + |end| > BATCH {
        OutputJoins(old(hal.sum), wrote, batch);
        WriteText(hal, guard, link, batch);
        wrote, batch := wrote + batch, "";
      }
      batch := batch + lines[i] + end;
    }
    assert lines[..|lines|] == lines;
  }

  lemma CollateNext(batch0: string, lines: seq<string>, i: nat, end: string, wrote: string, batch: string)
    requires i < |lines| && wrote + batch == batch0 + Rendered(lines[..i], end)
    ensures wrote + (batch + lines[i] + end) == batch0 + Rendered(lines[..i + 1], end)
    ensures (wrote + batch) + ("" + lines[i] + end) == batch0 + Rendered(lines[..i + 1], end)
  {
    hide Rendered;
    RenderedNext(lines[..i], lines[i], end);
    assert lines[..i] + [lines[i]] == lines[..i + 1];
    assert wrote + (batch + lines[i] + end) == wrote + batch + lines[i] + end;
    assert batch0 + Rendered(lines[..i], end) + lines[i] + end == batch0 + (Rendered(lines[..i], end) + lines[i] + end);
  }

  lemma LinesAreShort(s: Settings, monitor: bool, t: Text.Table, f: CanFrame)
    requires |t| <= Text.SLOTS
    ensures Short(Text.Lines(s, monitor, t, f))
  {
    hide Text.Lines;
    forall k | 0 <= k < |Text.Lines(s, monitor, t, f)| ensures |Text.Lines(s, monitor, t, f)[k]| < Text.LINE_MAX {
      Text.LinesFit(s, monitor, t, f, k);
    }
  }


  /** What the monitor has written, and what is still in its batch, is every accepted frame it
      received, in order. */
  ghost predicate Monitored(s: Settings, acc: Acceptance, received: seq<CanFrame>, wrote: string, batch: string) {
    wrote + batch == Shown(s, acc, received) && |batch| <= BATCH
  }

  /** What it adds up to on record: the frames received, all of them listened to, and the output. */
  predicate MonitorSum(d0: Digest, d: Digest, received: seq<CanFrame>, wrote: string) {
    d.listened == d0.listened + received && d.sent == d0.sent
    && d.session == d0.session.(output := d0.session.output + wrote)
  }

  lemma MonitoredNothing(s: Settings, acc: Acceptance, d: Digest)
    ensures Monitored(s, acc, [], "", "") && MonitorSum(d, d, [], "") && TableAfter(s, Accepted(acc, [])) == []
    ensures ViewRun(s, acc, []) == NO_VIEW_YET
  {
    assert d.session.output + "" == d.session.output && d.listened + [] == d.listened;
  }

  lemma SumHeard(d0: Digest, d: Digest, d': Digest, v: View, w: Wake)
    requires MonitorSum(d0, d, v.frames, v.wrote) && WaitAdds(d, d', Some(ListenOnly), w)
    ensures MonitorSum(d0, d', ViewAfter(v, Woken(w)).frames, v.wrote)
  {
    if w.GotFrame? { assert d0.listened + v.frames + [w.frame] == d0.listened + (v.frames + [w.frame]); }
  }

  lemma SumWrote(d0: Digest, d: Digest, received: seq<CanFrame>, wrote: string, text: string)
    requires MonitorSum(d0, d, received, wrote)
    ensures MonitorSum(d0, Outputting(d, text), received, wrote + text)
  {
    assert d0.session.output + wrote + text == d0.session.output + (wrote + text);
  }

  /** A received frame: formatted and batched if the filter accepts it. */
  method Show(hal: Hal, guard: Guard, link: LinkState, fmt: Text.FrameFormatter, acc: Acceptance,
              ghost received: seq<CanFrame>, f: CanFrame, batch0: string, ghost wrote0: string)
    returns (batch: string, ghost wrote: string)
    requires World(hal, guard, link) && hal.mode == Some(ListenOnly) && fmt.Valid() && fmt.monitor
    requires fmt.table.Rows() == TableAfter(fmt.s, Accepted(acc, received))
    requires Monitored(fmt.s, acc, received, wrote0, batch0)
    requires {fmt.table, fmt.table.entries} !! hal.Repr() + guard.Repr() + {link}
    modifies hal.Repr(), fmt.table, fmt.table.entries
    ensures World(hal, guard, link) && fmt.Valid() && OnlyWrote(hal, wrote) && (batch0 != "" ==> batch != "")
    ensures fmt.table.Rows() == TableAfter(fmt.s, Accepted(acc, received + [f]))
    ensures Monitored(fmt.s, acc, received + [f], wrote0 + wrote, batch)
  {
    hide Hal.Valid, Guard.Valid, World, Rendered, Screen, TableAfter, Text.Lines, Text.ShowPayload, Accepted, Outputting;
    batch, wrote := batch0, "";
    AcceptedNext(acc, received, f);
    NothingOutput(hal.sum);
    ghost var fs := Accepted(acc, received);
    if !acc.Accepts(f.id) {
      assert wrote0 + "" == wrote0 && fs + [] == fs;
      return;
    }
    LinesAreShort(fmt.s, true, TableAfter(fmt.s, fs), f);
    ShownNext(fmt.s, true, fs, f, LineEnd(fmt.s));
    var lines := fmt.Format(f);
    batch, wrote := Collate(hal, guard, link, lines, LineEnd(fmt.s), batch0);
    assert wrote0 + wrote + batch == wrote0 + batch0 + Rendered(lines, LineEnd(fmt.s)) by {
      assert wrote0 + wrote + batch == wrote0 + (wrote + batch);
    }
  }

  /** What the monitor's loop keeps, between two waits. */
  ghost predicate Showing(hal: Hal, guard: Guard, link: LinkState, fmt: Text.FrameFormatter, acc: Acceptance, d0: Digest,
                          start: nat, v: View, batch: string)
    reads hal, hal.mux, hal.mux.outBuf, hal.mux.tcp, guard, guard.heard, guard.heard.ids, link, fmt, fmt.table, fmt.table.entries
  {
    World(hal, guard, link) && hal.mode == Some(ListenOnly) && fmt.Valid() && fmt.monitor
    && fmt.table.Rows() == TableAfter(fmt.s, Accepted(acc, v.frames))
    && Monitored(fmt.s, acc, v.frames, v.wrote, batch) && MonitorSum(d0, hal.sum, v.frames, v.wrote)
    && start <= |hal.trace| && ViewRun(fmt.s, acc, hal.trace[start..]) == v
  }

  /** The batch's time is set exactly if there is one. */
  predicate Timed(v: View, batch: string) { v.at == Between && (v.flushAt == Never <==> batch == "") }

  lemma TimedIsInTime(s: Settings, acc: Acceptance, v: View, batch: string)
    requires Monitored(s, acc, v.frames, v.wrote, batch) && Timed(v, batch)
    ensures InTime(s, acc, v)
  {
    hide Shown;
    assert |Shown(s, acc, v.frames)| == |v.wrote| + |batch|;
    if batch != "" { assert |v.wrote| < |Shown(s, acc, v.frames)|; } else { assert v.wrote + "" == v.wrote; }
  }

  /** A received frame is shown, and a batch that was empty gets its time to go out. */
  method ShowNow(hal: Hal, guard: Guard, link: LinkState, fmt: Text.FrameFormatter, acc: Acceptance, ghost d0: Digest,
                 ghost start: nat, ghost v0: View, f: CanFrame, batch0: string, flushAt0: Deadline)
    returns (batch: string, flushAt: Deadline, ghost v: View)
    requires World(hal, guard, link) && hal.mode == Some(ListenOnly) && fmt.Valid() && fmt.monitor
    requires fmt.table.Rows() == TableAfter(fmt.s, Accepted(acc, v0.frames)) && Timed(v0, batch0) && v0.flushAt == flushAt0
    requires Monitored(fmt.s, acc, v0.frames, v0.wrote, batch0)
    requires MonitorSum(d0, hal.sum, v0.frames + [f], v0.wrote)
    requires start <= |hal.trace| && ViewRun(fmt.s, acc, hal.trace[start..]) == v0.(frames := v0.frames + [f])
    requires {fmt.table, fmt.table.entries} !! hal.Repr() + guard.Repr() + {link}
    modifies hal.Repr(), fmt.table, fmt.table.entries
    ensures Showing(hal, guard, link, fmt, acc, d0, start, v, batch) && Timed(v, batch) && v.flushAt == flushAt
    ensures v.frames == v0.frames + [f] && hal.sum.interrupts == old(hal.sum.interrupts)
    ensures old(hal.trace) <= hal.trace && |hal.script| <= |old(hal.script)|
  {
    hide Hal.Valid, Guard.Valid, World, TableAfter, Accepted, Monitored, MonitorSum, Text.CountdownTable.Rows, Outputting,
         ViewRun, Summary, Hal.Recorded;
    ghost var own: set<object> := {fmt.table, fmt.table.entries};
    assert own !! hal.Repr() + guard.Repr() + {link};
    ghost var sum, before, wrote := hal.sum, hal.trace, "";
    SumInWorld(hal, guard, link);
    batch, wrote := Show(hal, guard, link, fmt, acc, v0.frames, f, batch0, v0.wrote);
    SumInWorld(hal, guard, link);
    ViewWrote(fmt.s, acc, start, before, hal.trace, wrote);
    SumWrote(d0, sum, v0.frames + [f], v0.wrote, wrote);
    v := v0.(frames := v0.frames + [f], wrote := v0.wrote + wrote);
    InterruptsStay(sum, wrote);
    flushAt := flushAt0;
    if batch != "" && flushAt == Never {
      before := hal.trace;
      var now := ReadClock(hal, guard, link);
      flushAt := After(now, MONITOR_FLUSH_MS);
      ViewTimed(fmt.s, acc, start, before, now);
      v := v.(flushAt := flushAt);
    }
  }

  lemma SumInWorld(hal: Hal, guard: Guard, link: LinkState)
    requires World(hal, guard, link)
    ensures hal.sum == Summary(hal.trace)
  {
    hide Summary;
    SumIsSummary(hal);
  }

  lemma ViewTimed(s: Settings, acc: Acceptance, start: nat, before: seq<Event>, now: uint32)
    requires start <= |before|
    requires var v := ViewRun(s, acc, before[start..]); v.at == Between && v.flushAt == Never
    ensures ViewRun(s, acc, (before + [Clock(now)])[start..])
      == ViewRun(s, acc, before[start..]).(flushAt := After(now, MONITOR_FLUSH_MS))
  {
    hide ViewRun;
    ViewNext(s, acc, before[start..], Clock(now));
    assert (before + [Clock(now)])[start..] == before[start..] + [Clock(now)];
  }

  /** One wait of the monitor: a byte ends it, quiet time writes the batch, a frame is shown. */
  method MonitorStep(hal: Hal, guard: Guard, link: LinkState, fmt: Text.FrameFormatter, acc: Acceptance, ghost d0: Digest,
                     ghost start: nat, ghost v0: View, batch0: string, flushAt0: Deadline)
    returns (on: bool, batch: string, flushAt: Deadline, ghost v: View)
    requires Showing(hal, guard, link, fmt, acc, d0, start, v0, batch0) && Timed(v0, batch0) && v0.flushAt == flushAt0
    requires {fmt.table, fmt.table.entries} !! hal.Repr() + guard.Repr() + {link}
    modifies hal.Repr(), guard.Repr(), fmt.table, fmt.table.entries
    ensures Showing(hal, guard, link, fmt, acc, d0, start, v, batch)
    ensures if on then Timed(v, batch) && v.flushAt == flushAt else v == v0.(at := Ended)
    ensures old(hal.trace) <= hal.trace && |hal.script| <= |old(hal.script)|
    ensures if on then hal.sum.interrupts == old(hal.sum.interrupts) else old(hal.sum.interrupts) < hal.sum.interrupts
    ensures on ==> |hal.script| < |old(hal.script)| || (flushAt0.At? && flushAt.Never?)
  {
    hide Hal.Valid, Guard.Valid, World, TableAfter, Accepted, Monitored, Text.CountdownTable.Rows, MonitorSum, WaitAdds,
         ViewRun, AwaitRun;
    ghost var own: set<object> := {fmt.table, fmt.table.entries};
    assert own !! hal.Repr() + guard.Repr() + {link};
    on, batch, flushAt := true, batch0, flushAt0;
    ghost var sum, before := hal.sum, hal.trace;
    var w;
    ghost var wait;
    w, wait := ListenOn(hal, guard, link, flushAt);
    WaitParts(sum, hal.sum, w);
    SumHeard(d0, sum, hal.sum, v0, w);
    TimedIsInTime(fmt.s, acc, v0, batch0);
    ViewWaited(fmt.s, acc, start, before, wait, w);
    v := ViewAfter(v0, Woken(w));
    if w == Interrupted {
      on := false;
    } else if w == TimedOut {
      v := WriteBatch(hal, guard, link, fmt.s, acc, d0, start, v, batch);
      batch, flushAt := "", Never;
    } else {
      batch, flushAt, v := ShowNow(hal, guard, link, fmt, acc, d0, start, v0, w.frame, batch, flushAt);
    }
  }

  lemma ViewWaited(s: Settings, acc: Acceptance, start: nat, before: seq<Event>, wait: seq<Event>, w: Wake)
    requires start <= |before|
    requires var v := ViewRun(s, acc, before[start..]);
      v.at == Between && InTime(s, acc, v) && AwaitRun(v.flushAt, Some(ListenOnly), wait) == Woken(w)
    ensures ViewRun(s, acc, (before + wait)[start..]) == ViewAfter(ViewRun(s, acc, before[start..]), Woken(w))
  {
    hide ViewRun, InTime, ViewAfter;
    assert (before + wait)[start..] == before[start..] + wait;
    assert wait != [];
    ViewJoins(s, acc, before[start..], wait);
  }

  /** Waits while listening; a frame's id goes to the guard at once. */
  method ListenOn(hal: Hal, guard: Guard, link: LinkState, d: Deadline) returns (w: Wake, ghost wait: seq<Event>)
    requires World(hal, guard, link) && hal.mode == Some(ListenOnly)
    modifies hal.Repr(), guard.Repr()
    ensures World(hal, guard, link) && hal.mode == Some(ListenOnly) && Sentless(hal)
    ensures hal.trace == old(hal.trace) + wait && AwaitRun(d, Some(ListenOnly), wait) == Woken(w)
    ensures WaitAdds(old(hal.sum), hal.sum, Some(ListenOnly), w)
    ensures w.GotFrame? ==> |hal.script| < |old(hal.script)|
    ensures w.TimedOut? ==> d != Never
  {
    hide Hal.Valid, Guard.Valid, AwaitRun;
    w, wait := HearOne(hal, guard, d);
    TimesOut(d, wait);
  }

  lemma TimesOut(d: Deadline, wait: seq<Event>)
    ensures AwaitRun(d, Some(ListenOnly), wait) == Woken(TimedOut) ==> d != Never
  {
  }

  lemma WaitParts(d: Digest, d': Digest, w: Wake)
    requires WaitAdds(d, d', Some(ListenOnly), w)
    ensures if w == Interrupted then d.interrupts < d'.interrupts else d.interrupts == d'.interrupts
  {
  }

  /** The batch is written, and pushed out. */
  method WriteBatch(hal: Hal, guard: Guard, link: LinkState, ghost s: Settings, ghost acc: Acceptance, ghost d0: Digest,
                    ghost start: nat, ghost v0: View, batch: string)
    returns (ghost v: View)
    requires World(hal, guard, link) && hal.mode == Some(ListenOnly) && Monitored(s, acc, v0.frames, v0.wrote, batch)
    requires MonitorSum(d0, hal.sum, v0.frames, v0.wrote) && v0.at == Overdue
    requires start <= |hal.trace| && ViewRun(s, acc, hal.trace[start..]) == v0
    modifies hal.Repr()
    ensures World(hal, guard, link) && hal.mode == Some(ListenOnly) && MonitorSum(d0, hal.sum, v.frames, v.wrote)
    ensures v == View(v0.frames, v0.wrote + batch, Never, Between) && Monitored(s, acc, v.frames, v.wrote, "")
    ensures old(hal.trace) <= hal.trace && ViewRun(s, acc, hal.trace[start..]) == v && |hal.script| <= |old(hal.script)|
    ensures hal.sum.interrupts == old(hal.sum.interrupts)
  {
    hide Hal.Valid, Guard.Valid, Shown, Next, MonitorSum, ViewRun;
    assert v0.wrote + batch + "" == v0.wrote + batch;
    SumWrote(d0, hal.sum, v0.frames, v0.wrote, batch);
    WroteAdds(hal.sum, batch, hal.mode);
    InterruptsStay(hal.sum, batch);
    ViewFlushed(s, acc, start, hal.trace, batch, hal.mode);
    hal.Write(batch);
    hal.FlushOutput();
    v := View(v0.frames, v0.wrote + batch, Never, Between);
  }

  lemma ViewFlushed(s: Settings, acc: Acceptance, start: nat, before: seq<Event>, batch: string, mode: Option<CanMode>)
    requires start <= |before| && ViewRun(s, acc, before[start..]).at == Overdue
    ensures var v := ViewRun(s, acc, before[start..]);
      ViewRun(s, acc, (before + [Wrote(batch, mode)] + [Flushed])[start..]) == View(v.frames, v.wrote + batch, Never, Between)
  {
    hide ViewRun;
    var es := before[start..];
    ViewNext(s, acc, es, Wrote(batch, mode));
    ViewNext(s, acc, es + [Wrote(batch, mode)], Flushed);
    assert (before + [Wrote(batch, mode)] + [Flushed])[start..] == es + [Wrote(batch, mode)] + [Flushed];
  }

  /** Listens and shows until a byte arrives, or the client leaves. */
  method MonitorLoop(hal: Hal, guard: Guard, link: LinkState, s: Settings, acc: Acceptance)
    returns (batch: string, ghost es: seq<Event>)
    requires World(hal, guard, link) && hal.mode == Some(ListenOnly)
    modifies hal.Repr(), guard.Repr()
    ensures World(hal, guard, link) && AtPrompt(hal) && |hal.script| <= |old(hal.script)|
    ensures hal.trace == old(hal.trace) + es && ViewRun(s, acc, es).at == Ended
    ensures var v := ViewRun(s, acc, es);
      Monitored(s, acc, v.frames, v.wrote, batch) && MonitorSum(old(hal.sum), hal.sum, v.frames, v.wrote)
    ensures old(hal.sum.interrupts) < hal.sum.interrupts
  {
    hide Hal.Valid, Guard.Valid, World, TableAfter, Accepted, Monitored, Text.CountdownTable.Rows, MonitorSum, ViewRun;
    var fmt := new Text.FrameFormatter(s, true);
    ghost var own: set<object> := {fmt.table, fmt.table.entries};
    assert own !! hal.Repr() + guard.Repr() + {link};
    ghost var d0, start, v := hal.sum, |hal.trace|, NO_VIEW_YET;
    batch := "";
    MonitoredNothing(s, acc, d0);
    assert hal.trace[start..] == [];
    var flushAt, on := Never, true;
    while on
      invariant Showing(hal, guard, link, fmt, acc, d0, start, v, batch)
      invariant if on then Timed(v, batch) && v.flushAt == flushAt else v.at == Ended
      invariant old(hal.trace) <= hal.trace && |hal.script| <= |old(hal.script)|
      invariant if on then hal.sum.interrupts == d0.interrupts else d0.interrupts < hal.sum.interrupts
      decreases on, |hal.script|, flushAt.At?
    {
      on, batch, flushAt, v := MonitorStep(hal, guard, link, fmt, acc, d0, start, v, batch, flushAt);
    }
    es := hal.trace[start..];
  }

  /** An explicit receive filter narrows what is shown; the automatic one does not. */
  function MonitorProtocol(s: Settings): Protocol { if IsCan(s.protocol.current) then s.protocol.current else Can11_500 }

  function MonitorFilter(s: Settings): Acceptance {
    if s.rx.Auto? then ACCEPT_ALL else ReceiveFilter(s, MonitorProtocol(s))
  }

  /** Nothing but output, and off the bus. */
  predicate WindsUp(before: seq<Event>, after: seq<Event>) {
    before <= after && forall i :: |before| <= i < |after| ==> after[i].Wrote? || after[i].Closed?
  }

  /** What ATMA does, from one moment of the record to another: the controller is reset and opened
      listen-only with the monitor's filter. If it takes that (`ran`), the record `es` is a monitor's, up
      to a byte, and every frame it received, and that the filter accepts, was shown, in order, then
      STOPPED; else CAN ERROR. */
  predicate MonitorDid(s: Settings, before: seq<Event>, after: seq<Event>, d: Digest, d': Digest, ran: bool, es: seq<Event>) {
    var opening := before + [Closed, Opened(BitrateOf(MonitorProtocol(s)), ListenOnly, MonitorFilter(s), ran)];
    if ran then
      WindsUp(opening + es, after) && d.interrupts < d'.interrupts
      && var v := ViewRun(s, MonitorFilter(s), es); v.at == Ended && MonitorSum(d, d', v.frames, MonitorText(s, v.frames))
    else
      WroteOn(opening, after) && d' == Outputting(d, "CAN ERROR" + LineEnd(s))
  }

  function MonitorText(s: Settings, received: seq<CanFrame>): string {
    Shown(s, MonitorFilter(s), received) + ("STOPPED" + LineEnd(s))
  }

  /** ATMA. Main result: what the user sees is every accepted frame, in order, through every batch
      boundary, then STOPPED; nothing else, and no frame is thrown away unseen. */
  method Monitor(hal: Hal, guard: Guard, link: LinkState, s: Settings) returns (ghost ran: bool, ghost es: seq<Event>)
    requires World(hal, guard, link) && AtPrompt(hal)
    modifies hal.Repr(), guard.Repr(), link
    ensures World(hal, guard, link) && AtPrompt(hal) && |hal.script| <= |old(hal.script)|
    ensures MonitorDid(s, old(hal.trace), hal.trace, old(hal.sum), hal.sum, ran, es)
  {
    hide Hal.Valid, Guard.Valid, World, LineEnd, ReceiveFilter, MonitorFilter, MonitorProtocol, MonitorText, MonitorSum, ViewRun;
    var p, filter := MonitorProtocol(s), MonitorFilter(s);
    var ok := OpenMonitor(hal, guard, link, BitrateOf(p), filter);
    ran, es := ok, [];
    if !ok {
      Print(hal, guard, link, "CAN ERROR", LineEnd(s));
      return;
    }
    es := MonitorUntilStopped(hal, guard, link, s, filter);
  }

  method MonitorUntilStopped(hal: Hal, guard: Guard, link: LinkState, s: Settings, acc: Acceptance)
    returns (ghost es: seq<Event>)
    requires World(hal, guard, link) && hal.mode == Some(ListenOnly) && acc == MonitorFilter(s)
    modifies hal.Repr(), guard.Repr(), link
    ensures World(hal, guard, link) && AtPrompt(hal) && |hal.script| <= |old(hal.script)|
    ensures WindsUp(old(hal.trace) + es, hal.trace) && old(hal.sum.interrupts) < hal.sum.interrupts
    ensures var v := ViewRun(s, acc, es); v.at == Ended && MonitorSum(old(hal.sum), hal.sum, v.frames, MonitorText(s, v.frames))
  {
    hide Hal.Valid, Guard.Valid, Shown, LineEnd, World, MonitorSum, Outputting, MonitorFilter, ViewRun;
    var batch;
    ghost var d0 := hal.sum;
    batch, es := MonitorLoop(hal, guard, link, s, acc);
    ghost var d, v := hal.sum, ViewRun(s, acc, es);
    EndMonitor(hal, guard, link, batch, LineEnd(s));
    SumWrote(d0, d, v.frames, v.wrote, batch + ("STOPPED" + LineEnd(s)));
    assert v.wrote + (batch + ("STOPPED" + LineEnd(s))) == (v.wrote + batch) + ("STOPPED" + LineEnd(s));
    InterruptsStay(d, batch + ("STOPPED" + LineEnd(s)));
  }

  lemma InterruptsStay(d: Digest, text: string)
    ensures Outputting(d, text).interrupts == d.interrupts
  {
  }

  /** The last batch, off the bus, STOPPED. */
  method EndMonitor(hal: Hal, guard: Guard, link: LinkState, batch: string, end: string)
    requires World(hal, guard, link) && AtPrompt(hal)
    modifies hal.Repr(), link
    ensures World(hal, guard, link) && AtPrompt(hal) && |hal.script| <= |old(hal.script)| && WindsUp(old(hal.trace), hal.trace)
    ensures hal.sum == Outputting(old(hal.sum), batch + ("STOPPED" + end))
  {
    hide Hal.Valid, Guard.Valid, World, Outputting;
    ghost var d := hal.sum;
    NothingOutput(d);
    OutputJoins(d, batch, "STOPPED" + end);
    if batch != "" { WriteText(hal, guard, link, batch); }
    CloseLink(hal, guard, link);
    Print(hal, guard, link, "STOPPED", end);
  }

  method CloseLink(hal: Hal, guard: Guard, link: LinkState)
    requires World(hal, guard, link)
    modifies hal, link
    ensures World(hal, guard, link) && hal.mode == None && !link.open && link.talk == Unchecked
    ensures hal.trace == old(hal.trace) + [Closed] && hal.sum == old(hal.sum) && |hal.script| <= |old(hal.script)|
  {
    hide Hal.Valid, Guard.Valid;
    link.Close(hal);
  }

  method OpenMonitor(hal: Hal, guard: Guard, link: LinkState, rate: Bitrate, acc: Acceptance) returns (ok: bool)
    requires World(hal, guard, link) && AtPrompt(hal)
    modifies hal, link
    ensures World(hal, guard, link) && hal.sum == old(hal.sum) && |hal.script| <= |old(hal.script)|
    ensures hal.trace == old(hal.trace) + [Closed, Opened(rate, ListenOnly, acc, ok)]
    ensures if ok then hal.mode == Some(ListenOnly) else hal.mode == None
  {
    hide Hal.Valid, Guard.Valid, Next;
    link.Close(hal);
    ok := hal.CanOpen(rate, ListenOnly, acc);
  }

  method ReadHealth(hal: Hal, guard: Guard, link: LinkState) returns (h: CanHealth)
    requires World(hal, guard, link) && AtPrompt(hal)
    modifies hal
    ensures World(hal, guard, link) && AtPrompt(hal) && hal.trace == old(hal.trace) + [Health(h)]
    ensures hal.sum == old(hal.sum) && |hal.script| <= |old(hal.script)|
  {
    hide Hal.Valid, Guard.Valid, Next;
    h := hal.CanHealthNow();
  }

  // ---------- Survey and self-test ----------

  method IdsSeen(ids: SeenIds) returns (seen: seq<CanId>)
    requires ids.Valid()
    ensures seen == ids.Contents()
  {
    seen := ids.ids[..ids.count];
  }

  /** One rate of the survey, and its line; `es` is what it left on record before the line. */
  method SurveyOne(hal: Hal, guard: Guard, link: LinkState, s: Settings, rate: Bitrate)
    returns (finished: bool, report: RateReport, ghost ids: seq<CanId>, ghost es: seq<Event>)
    requires World(hal, guard, link) && AtPrompt(hal) && !link.open
    modifies hal.Repr(), guard.Repr()
    ensures World(hal, guard, link) && AtPrompt(hal) && SameControl(hal)
    ensures WroteOn(old(hal.trace) + es, hal.trace)
    ensures SurveyShows(es, rate, SURVEY_WINDOW_MS, finished, report, ids, SURVEY_IDS)
    ensures if finished then hal.sum.interrupts == old(hal.sum.interrupts) else old(hal.sum.interrupts) < hal.sum.interrupts
    ensures hal.sum.session.output == old(hal.sum.session.output)
      + ((if finished then SurveyLine(rate, report, ids) else "STOPPED") + LineEnd(s))
  {
    hide Hal.Valid, Guard.Valid, World, SurveyLine, LineEnd, SeenIds.Valid, SeenIds.Contents, SurveyShows;
    var seen := new SeenIds(SURVEY_IDS);
    assert seen !in hal.Repr() && seen.ids !in hal.Repr();
    finished, report, es := SurveyRate(hal, guard, link, rate, SURVEY_WINDOW_MS, seen);
    var list := IdsSeen(seen);
    ids := list;
    Print(hal, guard, link, if finished then SurveyLine(rate, report, list) else "STOPPED", LineEnd(s));
  }

  /** What AT#SURVEY does: the rates are tried in order up to the first that decodes frames, each
      report is what the record shows, and the text is those reports and the verdict drawn from all
      of them; or STOPPED, if a byte interrupted. */
  predicate SurveyDid(s: Settings, before: seq<Event>, after: seq<Event>, d: Digest, d': Digest, rs: seq<Rated>,
                      finished: bool, cut: Rated) {
    before + [Closed] <= after && StopsAtFrames(rs, finished)
    && (if finished then RatedOnRecord(after, |before| + 1, rs) else CutOnRecord(after, |before| + 1, rs, cut))
    && (if finished then d'.interrupts == d.interrupts else d.interrupts < d'.interrupts)
    && SameButOutput(d.session, d'.session)
    && d'.session.output == d.session.output
        + Rendered(SurveyLines(rs) + (if finished then SurveyVerdict(rs) else ["STOPPED"]), LineEnd(s))
  }

  /** AT#SURVEY: listens at each rate until one decodes frames. Main result: the report names each
      rate tried, in order, with what was received there, and the verdict is drawn from all of them; and
      nothing else was received or sent. */
  method SurveyBus(hal: Hal, guard: Guard, link: LinkState, s: Settings)
    returns (ghost rs: seq<Rated>, ghost finished: bool, ghost cut: Rated)
    requires World(hal, guard, link) && AtPrompt(hal)
    modifies hal.Repr(), guard.Repr(), link
    ensures World(hal, guard, link) && AtPrompt(hal) && |hal.script| <= |old(hal.script)|
    ensures SurveyDid(s, old(hal.trace), hal.trace, old(hal.sum), hal.sum, rs, finished, cut)
  {
    hide Hal.Valid, Guard.Valid, World, LineEnd, WiringLines, SurveyLines, AnyConfigured, ErrorsOf, Rendered, SurveyVerdict,
         RatedOnRecord, CutOnRecord;
    CloseLink(hal, guard, link);
    var whole, errors, configured, found;
    rs, whole, errors, configured, found, cut := SurveyAll(hal, guard, link, s);
    finished := whole;
    if whole {
      assert SurveyLines(rs) + [] == SurveyLines(rs);
      TellVerdict(hal, guard, link, s, rs, errors, configured, found, |old(hal.trace)| + 1, old(hal.sum.session.output));
    }
  }

  method TellVerdict(hal: Hal, guard: Guard, link: LinkState, s: Settings, ghost rs: seq<Rated>, errors: nat, configured: bool,
                     found: Option<Bitrate>, ghost start: nat, ghost before: string)
    requires World(hal, guard, link) && AtPrompt(hal) && RatedOnRecord(hal.trace, start, rs)
    requires errors == ErrorsOf(rs) && (configured <==> AnyConfigured(rs))
    requires found == if rs != [] && rs[|rs| - 1].report.frames > 0 then Some(SURVEY_RATES[|rs| - 1]) else None
    requires hal.sum.session.output == before + Rendered(SurveyLines(rs), LineEnd(s))
    modifies hal.Repr()
    ensures World(hal, guard, link) && AtPrompt(hal) && SameControl(hal) && RatedOnRecord(hal.trace, start, rs)
    ensures hal.sum.interrupts == old(hal.sum.interrupts)
    ensures hal.sum.session.output == before + Rendered(SurveyLines(rs) + SurveyVerdict(rs), LineEnd(s))
  {
    hide Hal.Valid, Guard.Valid, World, LineEnd, WiringLines, SurveyLines, AnyConfigured, ErrorsOf, Rendered, SurveyVerdict,
         OnlyWrites, RatedAt;
    var lines := if configured then WiringLines(found, errors)
                 else ["WIRING: UNKNOWN, the CAN controller could not be configured (run AT#SELFTEST)"];
    assert lines == SurveyVerdict(rs) by { VerdictIs(rs, errors, configured, found); }
    ghost var tr := hal.trace;
    PrintLines(hal, guard, link, lines, LineEnd(s));
    RatedStays(tr, hal.trace, start, rs);
    RenderedConcat(SurveyLines(rs), lines, LineEnd(s));
    assert before + Rendered(SurveyLines(rs), LineEnd(s)) + Rendered(lines, LineEnd(s))
      == before + (Rendered(SurveyLines(rs), LineEnd(s)) + Rendered(lines, LineEnd(s)));
  }

  /** The rates, one after the other, and what they add up to. */
  method SurveyAll(hal: Hal, guard: Guard, link: LinkState, s: Settings)
    returns (ghost rs: seq<Rated>, finished: bool, errors: nat, configured: bool, found: Option<Bitrate>, ghost cut: Rated)
    requires World(hal, guard, link) && AtPrompt(hal) && !link.open
    modifies hal.Repr(), guard.Repr()
    ensures World(hal, guard, link) && AtPrompt(hal) && SameControl(hal) && StopsAtFrames(rs, finished)
    ensures if finished then RatedOnRecord(hal.trace, |old(hal.trace)|, rs)
            else CutOnRecord(hal.trace, |old(hal.trace)|, rs, cut)
    ensures finished ==>
      errors == ErrorsOf(rs) && (configured <==> AnyConfigured(rs))
      && found == if rs != [] && rs[|rs| - 1].report.frames > 0 then Some(SURVEY_RATES[|rs| - 1]) else None
    ensures if finished then hal.sum.interrupts == old(hal.sum.interrupts) else old(hal.sum.interrupts) < hal.sum.interrupts
    ensures hal.sum.session.output == old(hal.sum.session.output)
      + Rendered(SurveyLines(rs) + (if finished then [] else ["STOPPED"]), LineEnd(s))
  {
    hide Hal.Valid, Guard.Valid, World, LineEnd, SurveyLine, SurveyLines, AnyConfigured, ErrorsOf, Rendered, RatedOnRecord,
         SurveyShows, OnlyWrites;
    rs, finished, errors, configured, found := [], true, 0, false, None;
    ghost var before, start := hal.sum.session.output, |hal.trace|;
    NothingRated(before, LineEnd(s));
    NoneRated(hal.trace, start);
    cut := Rated(NOTHING_FOUND, [], start, start);
    for i := 0 to |SURVEY_RATES|
      invariant World(hal, guard, link) && AtPrompt(hal) && SameControl(hal) && !link.open && found == None && finished
      invariant hal.sum.interrupts == old(hal.sum.interrupts)
      invariant |rs| == i && (forall k :: 0 <= k < i ==> rs[k].report.frames == 0)
      invariant RatedOnRecord(hal.trace, start, rs)
      invariant errors == ErrorsOf(rs) && (configured <==> AnyConfigured(rs))
      invariant hal.sum.session.output == before + Rendered(SurveyLines(rs), LineEnd(s))
    {
      ghost var lines, tr := SurveyLines(rs), hal.trace;
      var report;
      ghost var ids, es;
      finished, report, ids, es := SurveyOne(hal, guard, link, s, SURVEY_RATES[i]);
      ghost var r := Rated(report, ids, |tr|, |tr| + |es|);
      assert hal.trace[r.from..r.to] == es && hal.trace[..r.from] == tr;
      if !finished {
        cut := r;
        OneMoreLine(before, lines, "STOPPED", LineEnd(s));
        return;
      }
      RatedNext(rs, r);
      RatedMore(tr, hal.trace, start, rs, r);
      OneMoreLine(before, lines, SurveyLine(SURVEY_RATES[i], report, ids), LineEnd(s));
      rs := rs + [r];
      assert report.setupFailed ==> report.errors == 0 && report.frames == 0 by { RefusedFindsNothing(es, i, report, ids); }
      if !report.setupFailed {
        configured, errors := true, errors + report.errors;
        if report.frames > 0 {
          found := Some(SURVEY_RATES[i]);
          break;
        }
      }
    }
    assert SurveyLines(rs) + [] == SurveyLines(rs);
  }

  lemma NoneRated(tr: seq<Event>, start: nat)
    requires start == |tr|
    ensures RatedOnRecord(tr, start, [])
  {
  }

  lemma RefusedFindsNothing(es: seq<Event>, i: nat, r: RateReport, ids: seq<CanId>)
    requires i < |SURVEY_RATES| && SurveyShows(es, SURVEY_RATES[i], SURVEY_WINDOW_MS, true, r, ids, SURVEY_IDS)
    ensures r.setupFailed ==> r.errors == 0 && r.frames == 0
  {
  }

  /** What AT#SELFTEST does: the controller is reset and asked for; if it is there, a frame is sent
      in loopback mode at each rate in turn, until a byte interrupts; each result is what the record
      shows, and the verdict is PASS exactly if some frame came back. */
  predicate SelfTestDid(s: Settings, before: seq<Event>, after: seq<Event>, d: Digest, d': Digest, present: bool,
                        detail: string, rs: seq<Looped>) {
    before + [Closed, Probed(present, detail)] <= after && LoopedOnRecord(after, |before| + 2, rs)
    && LoopedThrough(present, rs)
    && (if rs != [] && rs[|rs| - 1].result == LoopInterrupted then d.interrupts < d'.interrupts
        else d'.interrupts == d.interrupts)
    && SameButOutput(d.session, d'.session)
    && d'.session.output == d.session.output + Rendered(SelfTestText(present, detail, rs), LineEnd(s))
  }

  /** AT#SELFTEST: is the controller there, and does a frame come back at each rate? */
  method SelfTestBus(hal: Hal, guard: Guard, link: LinkState, s: Settings)
    returns (ghost present: bool, ghost detail: string, ghost rs: seq<Looped>)
    requires World(hal, guard, link) && AtPrompt(hal)
    modifies hal.Repr(), guard.Repr(), link
    ensures World(hal, guard, link) && AtPrompt(hal) && |hal.script| <= |old(hal.script)|
    ensures SelfTestDid(s, old(hal.trace), hal.trace, old(hal.sum), hal.sum, present, detail, rs)
  {
    hide Hal.Valid, Guard.Valid, World, LineEnd, LoopbackLine, LoopbackLines, Rendered, AnyPassed, LoopedOnRecord,
         ControllerLine;
    CloseLink(hal, guard, link);
    var there, text := ProbeController(hal, guard, link);
    present, detail, rs := there, text, [];
    ghost var first := ControllerLine(there, text);
    ghost var before, start := hal.sum.session.output, |hal.trace|;
    NothingLooped(before, first, LineEnd(s));
    NoneLooped(hal.trace, start);
    ghost var tr := hal.trace;
    Print(hal, guard, link, ControllerLine(there, text), LineEnd(s));
    LoopedStays(tr, hal.trace, start, rs);
    var passed := false;
    if there {
      var stopped;
      rs, stopped, passed := LoopbackAll(hal, guard, link, s, before, first, start);
      if stopped {
        assert SelfTestText(present, detail, rs) == [first] + LoopbackLines(rs);
        return;
      }
    }
    var verdict := if passed then "SELFTEST: PASS" else "SELFTEST: FAIL";
    OneMoreLine(before, [first] + LoopbackLines(rs), verdict, LineEnd(s));
    tr := hal.trace;
    Print(hal, guard, link, verdict, LineEnd(s));
    LoopedStays(tr, hal.trace, start, rs);
  }

  lemma NoneLooped(tr: seq<Event>, start: nat)
    requires start == |tr|
    ensures LoopedOnRecord(tr, start, []) && !AnyPassed([])
  {
  }

  lemma NonePassed()
    ensures !AnyPassed([])
  {
  }

  lemma NothingLooped(before: string, first: string, end: string)
    ensures before + (first + end) == before + Rendered([first] + LoopbackLines([]), end)
  {
    hide Rendered;
    NothingRendered(before, end);
    OneMoreLine(before, [], first, end);
    assert [first] + LoopbackLines([]) == [first] == [] + [first];
  }

  /** Every rate, until a byte interrupts. */
  method LoopbackAll(hal: Hal, guard: Guard, link: LinkState, s: Settings, ghost before: string, ghost first: string,
                     ghost start: nat)
    returns (ghost rs: seq<Looped>, stopped: bool, passed: bool)
    requires World(hal, guard, link) && AtPrompt(hal) && !link.open && LoopedOnRecord(hal.trace, start, [])
    requires hal.sum.session.output == before + Rendered([first] + LoopbackLines([]), LineEnd(s))
    modifies hal.Repr(), guard.Repr()
    ensures World(hal, guard, link) && AtPrompt(hal) && SameControl(hal)
    ensures 0 < |rs| && LoopedOnRecord(hal.trace, start, rs) && LoopedThrough(true, rs)
    ensures (stopped <==> rs[|rs| - 1].result == LoopInterrupted) && (passed <==> AnyPassed(rs))
    ensures if stopped then old(hal.sum.interrupts) < hal.sum.interrupts else hal.sum.interrupts == old(hal.sum.interrupts)
    ensures hal.sum.session.output == before + Rendered([first] + LoopbackLines(rs), LineEnd(s))
  {
    hide Hal.Valid, Guard.Valid, World, LineEnd, LoopbackLine, LoopbackLines, Rendered, AnyPassed, LoopedOnRecord,
         LoopShows, OnlyWrites;
    rs, stopped, passed := [], false, false;
    NonePassed();
    for i := 0 to |SURVEY_RATES|
      invariant World(hal, guard, link) && AtPrompt(hal) && SameControl(hal) && !link.open
      invariant |rs| == i && !stopped && (passed <==> AnyPassed(rs)) && hal.sum.interrupts == old(hal.sum.interrupts)
      invariant forall k :: 0 <= k < i ==> rs[k].result != LoopInterrupted
      invariant LoopedOnRecord(hal.trace, start, rs)
      invariant hal.sum.session.output == before + Rendered([first] + LoopbackLines(rs), LineEnd(s))
    {
      ghost var lines, tr := [first] + LoopbackLines(rs), hal.trace;
      var r;
      ghost var es, c;
      r, es, c := LoopbackOne(hal, guard, link, s, SURVEY_RATES[i]);
      ghost var l := Looped(r, c, |tr|, |tr| + |es|);
      assert hal.trace[l.from..l.to] == es;
      LoopedMore(tr, hal.trace, start, rs, l);
      OneMoreLine(before, lines, LoopbackLine(SURVEY_RATES[i], r), LineEnd(s));
      LoopbackNext(rs, l);
      assert lines + [LoopbackLine(SURVEY_RATES[i], r)] == [first] + LoopbackLines(rs + [l]);
      rs := rs + [l];
      if r == Pass { passed := true; }
      if r == LoopInterrupted { return rs, true, passed; }
    }
  }

  /** One rate of the self-test, and its line. */
  method LoopbackOne(hal: Hal, guard: Guard, link: LinkState, s: Settings, rate: Bitrate)
    returns (r: LoopbackResult, ghost es: seq<Event>, ghost c: ProbeCourse)
    requires World(hal, guard, link) && AtPrompt(hal) && !link.open
    modifies hal.Repr(), guard.Repr()
    ensures World(hal, guard, link) && AtPrompt(hal) && SameControl(hal)
    ensures WroteOn(old(hal.trace) + es, hal.trace) && LoopShows(es, rate, r, c)
    ensures if r == LoopInterrupted then old(hal.sum.interrupts) < hal.sum.interrupts
            else hal.sum.interrupts == old(hal.sum.interrupts)
    ensures hal.sum.session.output == old(hal.sum.session.output) + (LoopbackLine(rate, r) + LineEnd(s))
  {
    hide Hal.Valid, Guard.Valid, World, LineEnd, LoopbackLine, LoopShows;
    r, es, c := LoopbackRoundTrip(hal, guard, link, rate);
    Print(hal, guard, link, LoopbackLine(rate, r), LineEnd(s));
  }

  method ProbeController(hal: Hal, guard: Guard, link: LinkState) returns (present: bool, detail: string)
    requires World(hal, guard, link) && !link.open
    modifies hal
    ensures World(hal, guard, link) && hal.mode == None && |hal.script| <= |old(hal.script)|
    ensures hal.trace == old(hal.trace) + [Probed(present, detail)] && hal.sum == old(hal.sum)
  {
    hide Hal.Valid, Guard.Valid, Next;
    present, detail := hal.CanProbe();
  }
}
