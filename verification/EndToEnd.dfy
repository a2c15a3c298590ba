/** From the ECU's reply to the scanner's message: the closed loop, the printed reply and the scanner
    put together. */
module EndToEnd {
  import opened CanTypes
  import opened Config
  import opened IsoTp
  import opened ClosedLoop
  import CanScan
  import Commands
  import Conversation
  import Exchange
  import Padding
  import Readout
  import Record
  import Replies
  import ReplyText
  import Text
  import TypedBus
  import Vecu
  import WriteGuard

  lemma {:induction false} OneResponder(id: CanId, segments: seq<seq<byte>>)
    requires forall i :: 0 <= i < |segments| ==> |segments[i]| == 8
    ensures ReplyText.DataOf(Padding.OnBus(id, segments), id.value) == segments
    ensures Padding.FramesOf(Padding.OnBus(id, segments), id) == Padding.OnBus(id, segments)
    decreases |segments|
  {
    hide ReplyText.DataOf, Padding.FramesOf, Padding.OnBus;
    if segments == [] {
      NoResponder(id);
    } else {
      var front := segments[..|segments| - 1];
      OneResponder(id, front);
      OneMoreFrame(id, front, segments[|segments| - 1]);
      assert segments == front + [segments[|segments| - 1]];
    }
  }

  lemma NoResponder(id: CanId)
    ensures Padding.OnBus(id, []) == [] && ReplyText.DataOf([], id.value) == [] && Padding.FramesOf([], id) == []
  {
  }

  lemma OneMoreFrame(id: CanId, segments: seq<seq<byte>>, data: seq<byte>)
    requires |data| == 8 && forall i :: 0 <= i < |segments| ==> |segments[i]| == 8
    ensures var fs := Padding.OnBus(id, segments); var all := Padding.OnBus(id, segments + [data]);
      all == fs + [Frame(id, data)] && ReplyText.DataOf(all, id.value) == ReplyText.DataOf(fs, id.value) + [data]
      && Padding.FramesOf(all, id) == Padding.FramesOf(fs, id) + [Frame(id, data)]
  {
    var fs := Padding.OnBus(id, segments);
    assert Padding.OnBus(id, segments + [data]) == fs + [Frame(id, data)];
    assert (fs + [Frame(id, data)])[..|fs|] == fs;
  }

  // ---------- The adapter's counters ----------

  /** The frames that the wait loop heeds: those the filter accepts. */
  function Heeded(ctx: Conversation.Ctx, hs: seq<Conversation.Heard>): seq<CanFrame> {
    if hs == [] then []
    else
      var f := hs[|hs| - 1].frame;
      Heeded(ctx, hs[..|hs| - 1]) + (if ctx.want.Accepts(f.id) then [f] else [])
  }

  predicate AllGranted(ctx: Conversation.Ctx, hs: seq<Conversation.Heard>) {
    forall h :: h in hs && Conversation.FirstToAnswer(ctx, h.frame) ==> h.answered
  }

  /** With every first frame answered, the wait loop's counters are those that `Padding` counts. */
  lemma {:induction false} OwedIsCount(ctx: Conversation.Ctx, start: uint32, hs: seq<Conversation.Heard>)
    requires ctx.s.cfc && AllGranted(ctx, hs)
    requires Conversation.StopsAtEnd(ctx, start, hs) && Conversation.Answering(ctx, start, hs).ending != Conversation.Full
    ensures Conversation.Answering(ctx, start, hs).owed == Padding.CountAll(Heeded(ctx, hs))
  {
    hide Conversation.OnAnswer, Padding.Count, IsResponsePending;
    if hs != [] {
      var front, h := hs[..|hs| - 1], hs[|hs| - 1];
      var c := Conversation.Answering(ctx, start, front);
      OwedIsCount(ctx, start, front);
      if ctx.want.Accepts(h.frame.id) {
        assert Heeded(ctx, hs)[..|Heeded(ctx, front)|] == Heeded(ctx, front);
        OwedStep(ctx, c, h);
      } else {
        assert Heeded(ctx, front) + [] == Heeded(ctx, front);
      }
    }
  }

  lemma OwedStep(ctx: Conversation.Ctx, c: Conversation.Client, h: Conversation.Heard)
    requires ctx.s.cfc && ctx.want.Accepts(h.frame.id) && (Conversation.FirstToAnswer(ctx, h.frame) ==> h.answered)
    requires |c.owed| <= Text.SLOTS && c.ending == Conversation.Listening
    ensures var c' := Conversation.OnFrame(ctx, c, h);
      c'.ending != Conversation.Full ==> c'.owed == Padding.Count(c.owed, h.frame)
  {
    hide Text.Expect, Text.Received, ShownAsResponse;
  }

  /** The ST window, and the shorter wait that AT AT asks for. */
  function StMs(s: Settings): (ms: nat)
    ensures ms <= 1020
  {
    4 * if s.stTicks == 0 then 50 else s.stTicks
  }

  function ShortMs(s: Settings): nat { if s.adaptive == 2 then 25 else 50 }

  /** Main result: so after each answer frame the adapter waits the full ST window exactly as long as
      one of up to four multi-frame responders has not sent the last byte it announced. */
  lemma WaitsWhileOwed(ctx: Conversation.Ctx, start: uint32, hs: seq<Conversation.Heard>)
    requires hs != [] && ctx.s.cfc && AllGranted(ctx, hs)
    requires Conversation.StopsAtEnd(ctx, start, hs)
    requires Conversation.Answering(ctx, start, hs).ending == Conversation.Listening
    requires var f := hs[|hs| - 1].frame; ctx.want.Accepts(f.id) && !IsResponsePending(f)
    requires Padding.FullFrames(Heeded(ctx, hs)) && |Padding.MultiFrame(Heeded(ctx, hs))| <= Text.SLOTS
    ensures var fs := Heeded(ctx, hs);
      Conversation.Answering(ctx, start, hs).deadline
        == After(hs[|hs| - 1].now,
                 if ctx.s.adaptive == 0 || StMs(ctx.s) <= ShortMs(ctx.s)
                    || exists id :: id in Padding.MultiFrame(fs)
                                    && Padding.SoloAll(None, Padding.FramesOf(fs, id)).left != Some(0)
                 then StMs(ctx.s) else ShortMs(ctx.s))
  {
    hide Padding.MultiFrame, Padding.SoloAll, Padding.FramesOf, Padding.CountAll, Text.AnyOwed, IsResponsePending, Heeded,
         ShownAsResponse, AllGranted;
    OwedIsCount(ctx, start, hs);
    Padding.NothingOwedMeansComplete(Heeded(ctx, hs));
  }

  /** After a response-pending frame that is logged it waits five seconds. */
  lemma PendingGetsFiveSeconds(ctx: Conversation.Ctx, start: uint32, hs: seq<Conversation.Heard>)
    requires hs != [] && var f := hs[|hs| - 1].frame; ctx.want.Accepts(f.id) && Exchange.AsksForTime(f)
    requires Conversation.StopsAtEnd(ctx, start, hs)
    requires Conversation.Answering(ctx, start, hs).ending == Conversation.Listening
    ensures Conversation.Answering(ctx, start, hs).deadline == After(hs[|hs| - 1].now, 5000)
  {
  }

  // ---------- From the ECU to the scanner ----------

  /** What the scanner makes of a printed reply: the messages of one responder. */
  function ReadBack(lines: seq<string>, id: nat): seq<seq<byte>> {
    CanScan.Final(CanScan.Scan(CanScan.IDLE, ReplyText.FramesOf(lines, id)).messages)
  }

  predicate AllSendable(messages: seq<seq<byte>>) {
    forall i :: 0 <= i < |messages| ==> CanScan.Sendable(messages[i])
  }

  /** The frames of some messages of one responder, printed with headers, are read back as those
      messages, but for those that start 7F xx 78. */
  lemma LogReadsBack(s: Settings, id: CanId, messages: seq<seq<byte>>)
    requires s.headers && !s.dlc && AllSendable(messages)
    ensures ReadBack(Replies.Screen(s, false, Padding.OnBus(id, CanScan.SegmentAll(messages))), id.value)
      == CanScan.Answers(messages)
  {
    hide CanScan.Scan, CanScan.Final, Replies.Screen, ReplyText.FramesOf, ReplyText.PrintAll, ReplyText.DataOf, Segment,
         FrameCount, SegmentAt, Padding.OnBus, CanScan.SegmentAll, CanScan.Answers;
    var log := Padding.OnBus(id, CanScan.SegmentAll(messages));
    OneResponder(id, CanScan.SegmentAll(messages));
    Replies.ScreenIsPrinted(s, false, log);
    ReplyText.AnswersComeBack(s.spaces, log, id.value, messages);
  }

  /** One responder says some messages. */
  function SaidBy(id: CanId, messages: seq<seq<byte>>): (said: seq<Readout.Said>)
    ensures Readout.AnswersSaid(said) == messages
  {
    seq(|messages|, i requires 0 <= i < |messages| => Readout.Said(id, messages[i]))
  }

  lemma {:induction false} OneSpeaker(id: CanId, messages: seq<seq<byte>>)
    ensures Readout.FramesSaid(SaidBy(id, messages)) == Padding.OnBus(id, CanScan.SegmentAll(messages))
    decreases |messages|
  {
    hide Segment;
    if messages != [] {
      var front, last := messages[..|messages| - 1], messages[|messages| - 1];
      OneSpeaker(id, front);
      assert SaidBy(id, messages)[..|front|] == SaidBy(id, front);
    }
  }

  /** The frames of some messages of one responder, printed without headers, are read as those
      messages, all of them. */
  lemma LogShows(s: Settings, id: CanId, messages: seq<seq<byte>>)
    requires s.caf && !s.headers && AllSendable(messages)
    ensures Readout.ReadShown(Replies.Screen(s, false, Padding.OnBus(id, CanScan.SegmentAll(messages)))) == Some(messages)
  {
    hide Replies.Screen, Readout.ReadShown, Readout.FramesSaid, Padding.OnBus, CanScan.SegmentAll;
    OneSpeaker(id, messages);
    Readout.ShownReadsBack(s, SaidBy(id, messages));
  }

  /** What the ECU says is read as its answer: the response-pending message before it is dropped, and
      so is an answer that starts 7F xx 78 itself. */
  lemma MessagesRead(s: Setup)
    requires 1 <= |s.answer| <= 4095
    ensures AllSendable(Messages(s))
    ensures CanScan.Answers(Messages(s))
      == if |s.answer| >= 3 && s.answer[0] == 0x7F && s.answer[2] == 0x78 then [] else [s.answer]
  {
    assert CanScan.Answers([s.answer][1..]) == [];
    if s.pendingMs > 0 {
      var pending: seq<byte> := [0x7F, s.sid, 0x78];
      assert Messages(s) == [pending, s.answer];
      assert [pending, s.answer][1..] == [s.answer];
    } else {
      assert Messages(s) == [s.answer];
    }
  }

  /** The adapter and the scanner disagree on what is response-pending: a longer answer that starts
      7F xx 78 is none to the adapter, which logs it as an answer, and one to the scanner, which
      drops it. */
  lemma LongPendingIsDropped(id: CanId, xx: byte, rest: seq<byte>)
    requires 0 < |rest| && 3 + |rest| <= 4095
    ensures var answer: seq<byte> := [0x7F, xx, 0x78] + rest;
      CanScan.Sendable(answer) && CanScan.Final([answer]) == []
      && forall k :: 0 <= k < FrameCount(|answer|) ==> !IsResponsePending(Frame(id, SegmentAt(answer, k)))
  {
    var answer: seq<byte> := [0x7F, xx, 0x78] + rest;
    assert [answer][..0] == [];
    forall k | 0 <= k < FrameCount(|answer|) ensures !IsResponsePending(Frame(id, SegmentAt(answer, k))) {
      NoPendingFrame(id, answer, k);
    }
  }

  lemma NoPendingFrame(id: CanId, answer: seq<byte>, k: nat)
    requires 3 < |answer| <= 4095 && k < FrameCount(|answer|)
    ensures !IsResponsePending(Frame(id, SegmentAt(answer, k)))
  {
    var data := SegmentAt(answer, k);
    var n: int := |answer|;
    if n <= 7 {
      assert data[0] == n;
    } else if k == 0 {
      assert data[0] == 0x10 + n / 256 % 16;
    } else {
      assert data[0] == 0x20 + k % 16;
    }
  }

  /** What the user is sent for a request: the reply, the line end after it, and the prompt. */
  function SentBack(s: Settings, log: seq<CanFrame>, o: Exchange.Outcome): string {
    Replies.ReplyTo(s, log, o) + Replies.LineEnd(s) + ">"
  }

  /** Main result: a request that goes out to an ECU that has a reply to it, on an undisturbed bus and
      with no frame lost, is answered; and what the user is sent, read line by line, is the ECU's reply
      byte for byte: with headers (spaces or not) the scanner reads exactly the answer to that request,
      unless it starts 7F xx 78; without, the lines are all that the ECU said. */
  lemma AnswerReadsBack(s: Setup, e: Vecu.Ecu, sentAt: nat, began: nat, gaps: seq<nat>, f: CanFrame,
                        before: seq<Record.Event>, after: seq<Record.Event>, c: Exchange.Course)
    requires Fits(s) && Vecu.Sound(e) && Asks(s, f) && InReach(s) && sentAt <= began <= sentAt + s.busy
    requires Exchange.Went(s.ctx, f, before, after, c) && c.Talked? && !c.health.rxOverflow
    requires Plays(s, Env(Asked(s, e, f, sentAt), began), c.dialogue, gaps)
    ensures Exchange.OutcomeOf(s.ctx, c) == Exchange.Answered
    ensures
      var lines := Readout.LinesOf(SentBack(s.ctx.s, Exchange.LogOf(s.ctx, c), Exchange.OutcomeOf(s.ctx, c)));
      (s.ctx.s.headers && !s.ctx.s.dlc ==>
         ReadBack(lines, s.spec.reply.value)
         == if |s.answer| >= 3 && s.answer[0] == 0x7F && s.answer[2] == 0x78 then [] else [s.answer])
      && (s.ctx.s.caf && !s.ctx.s.headers ==>
            Readout.ReadShown(lines)
            == Some(if s.pendingMs > 0 then [[0x7F, s.sid, 0x78], s.answer] else [s.answer]))
  {
    hide Fits, Plays, Exchange.Went, Exchange.LogOf, Exchange.OutcomeOf, ReadBack, Replies.Screen, Padding.OnBus,
         CanScan.SegmentAll, CanScan.Answers, AllSendable, Asks, Asked, Vecu.Sound, InReach, Readout.ReadShown,
         Readout.LinesOf, Replies.ReplyTo, Replies.LineEnd;
    AnswerIsReported(s, e, sentAt, began, gaps, f, before, after, c);
    FitsParts(s);
    MessagesRead(s);
    var log := Padding.OnBus(s.spec.reply, CanScan.SegmentAll(Messages(s)));
    Readout.ReplyComesBack(s.ctx.s, log, Exchange.Answered);
    var screen := Replies.Screen(s.ctx.s, false, log);
    assert screen + Replies.OutcomeLines(Exchange.Answered) == screen;
    if s.ctx.s.headers && !s.ctx.s.dlc { LogReadsBack(s.ctx.s, s.spec.reply, Messages(s)); }
    if s.ctx.s.caf && !s.ctx.s.headers { LogShows(s.ctx.s, s.spec.reply, Messages(s)); }
    assert Messages(s) == if s.pendingMs > 0 then [[0x7F, s.sid, 0x78], s.answer] else [s.answer];
  }

  /** The same from the keyboard: the bytes of a request, typed in hex under a CAN protocol, reach such an ECU,
      and what the user is sent back up to the prompt is read as the ECU's answer to them. */
  lemma TypedReadsBack(a: Commands.Moment, b: Commands.Moment, bytes: seq<byte>, d: Commands.Deed, s: Setup, e: Vecu.Ecu,
                       sentAt: nat, began: nat, gaps: seq<nat>, f: CanFrame) returns (text: string)
    requires Commands.LineDid(a, b, ReplyText.HexOf(bytes), d) && 1 <= |bytes| <= (if a.settings.caf then 7 else 8)
    requires IsCan(a.settings.protocol.current) && s.ctx == TypedBus.TypedCtx(a.settings, None)
    requires TypedBus.IsRequest(a.settings, a.settings.protocol.current, bytes, f)
    requires Fits(s) && Vecu.Sound(e) && Asks(s, f) && InReach(s) && sentAt <= began <= sentAt + s.busy
    requires d.Asked? ==>
      d.course.Talked? && !d.course.health.rxOverflow
      && Plays(s, Env(Asked(s, e, f, sentAt), began), d.course.dialogue, gaps)
    ensures b.sum.session.output == a.sum.session.output + text
    ensures
      var lines := Readout.LinesOf(text + Replies.LineEnd(a.settings) + ">");
      (a.settings.headers && !a.settings.dlc ==>
         ReadBack(lines, s.spec.reply.value)
         == if |s.answer| >= 3 && s.answer[0] == 0x7F && s.answer[2] == 0x78 then [] else [s.answer])
      && (a.settings.caf && !a.settings.headers ==>
            Readout.ReadShown(lines)
            == Some(if s.pendingMs > 0 then [[0x7F, s.sid, 0x78], s.answer] else [s.answer]))
  {
    hide Commands.LineDid, ReplyText.HexOf, Fits, Plays, Exchange.Went, Exchange.LogOf, Exchange.OutcomeOf, ReadBack,
         Asks, Asked, Vecu.Sound, InReach, Readout.ReadShown, Readout.LinesOf, Replies.ReplyTo, Replies.LineEnd,
         TypedBus.IsRequest;
    assert ReplyText.HexOf(bytes) + TypedBus.CountText(None) == ReplyText.HexOf(bytes);
    var g;
    g, text := TypedBus.RequestTyped(a, b, bytes, None, d);
    OneFrame(a.settings, a.settings.protocol.current, bytes, f, g);
    AnswerReadsBack(s, e, sentAt, began, gaps, f, a.trace + [Record.Executed(ReplyText.HexOf(bytes))], d.asked, d.course);
  }

  /** The bytes typed and the settings determine the frame. */
  lemma OneFrame(s: Settings, p: Protocol, bytes: seq<byte>, f: CanFrame, g: CanFrame)
    requires TypedBus.IsRequest(s, p, bytes, f) && TypedBus.IsRequest(s, p, bytes, g)
    ensures f == g
  {
    assert f.id == g.id && f.data == g.data;
  }

  /** With the settings a client starts from, every ECU on the eight standard 11-bit answer ids fits:
      its answers pass the filter, and our flow control reaches it and asks for no spacing. */
  lemma DefaultsFit(s: Setup, p: Protocol)
    requires s.ctx.s == DEFAULTS.(protocol := ProtocolSel(p, true)) && s.ctx.p == p && (p == Can11_500 || p == Can11_250)
    requires s.ctx.want == ReceiveFilter(s.ctx.s, p) && s.ctx.maxResponses < 0
    requires !s.spec.reply.ext && 0x7E8 <= s.spec.reply.value <= 0x7EF
    requires s.spec.physical == Std11(s.spec.reply.value - 8)
    requires 1 <= |s.answer| <= 4095 && !(|s.answer| == 3 && s.answer[0] == 0x7F && s.answer[2] == 0x78)
    requires s.busy <= 100_000 && s.frameUs == Vecu.FrameUs(BitrateOf(p)) && s.pendingMs <= 4_800
    ensures Fits(s) && s.frameUs == if p == Can11_500 then 230 else 460
  {
    hide SegmentAt, FrameCount, Vecu.Apart, Pad;
    DefaultFlow(s, p);
    AnswerIdsAccepted(s.ctx.s, p, s.spec.reply);
    FrameId(s, Ahead(s)) by { OneOrMore(s); }
  }

  lemma DefaultFlow(s: Setup, p: Protocol)
    requires s.ctx.s == DEFAULTS.(protocol := ProtocolSel(p, true)) && s.ctx.p == p
    requires !s.spec.reply.ext && 0x7E8 <= s.spec.reply.value <= 0x7EF && 1 <= |s.answer| <= 4095
    ensures var f := OurFc(s);
      f.id == Std11(s.spec.reply.value - 8) && |f.data| == 8 && f.data[0] == 0x30 && f.data[1] == 0 && f.data[2] == 0
    ensures s.frameUs <= 1000 ==> Gap(s) == s.frameUs
  {
    hide SegmentAt, FrameCount;
    OneOrMore(s);
    FrameId(s, Ahead(s));
    FlowControlReaches(s.ctx.s, p, FrameAt(s, Ahead(s)));
  }

  /** That flow control needs no more than the READ tier, unless its id was heard as traffic. */
  lemma FlowControlAdmitted(s: Setup, h: WriteGuard.History)
    requires Fits(s) && Long(s) && WriteGuard.IsDiagnosticId(s.spec.physical) && !WriteGuard.Recorded(h, s.spec.physical)
    ensures WriteGuard.RequiredTier(h, OurFc(s)) == WriteGuard.Read
  {
    hide Gap, WriteGuard.Recorded, FrameAt, IsResponsePending;
    assert PciOf(OurFc(s)) == FlowControl;
  }
}
