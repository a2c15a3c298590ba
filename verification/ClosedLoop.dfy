/** The two ISO-TP ends against each other: the virtual ECU (lib/vecu/src/vecu.cpp) answers the
    adapter's wait loop (`converse`, lib/elm/src/bus.cpp) over a lossless bus, on one clock. What the
    adapter leaves on record is compared with what an ECU, asked at those times, would have done. */
module ClosedLoop {
  import opened CanTypes
  import opened Config
  import opened IsoTp
  import opened Record
  import opened Conversation
  import opened Exchange
  import CanScan
  import Links
  import Padding
  import Text
  import Vecu

  /** The ECU says `pendingMs` before the answer that it needs that long (0: it does not), with the
      service byte of the request. `busy` bounds how long one call of the adapter takes, in
      microseconds. */
  datatype Setup = Setup(spec: Vecu.EcuSpec, frameUs: nat, ctx: Ctx, answer: seq<byte>, pendingMs: uint16, sid: byte,
                         busy: nat)

  /** The ECU, and when the adapter makes its next call, in microseconds that never wrap; both ends
      only see them wrapped. */
  datatype Env = Env(ecu: Vecu.Ecu, now: nat)

  function Ms(now: nat): uint32 { now / 1000 % WORD }

  function Us(now: nat): uint32 { now % WORD }

  // ---------- The environment ----------

  /** The event is what this ECU, this clock and an undisturbed bus answer to a call at `v.now`: a
      frame comes exactly if the ECU has one due, what is sent arrives, and no byte is waiting. */
  predicate Meets(s: Setup, v: Env, e: Event)
    requires Vecu.Sound(v.ecu)
  {
    match e
    case ByteRead(c, _) => c == Links.NOTHING
    case NoFrame => Vecu.Poll(s.spec, s.frameUs, v.ecu, Us(v.now)).out == None
    case Received(f, _) => Vecu.Poll(s.spec, s.frameUs, v.ecu, Us(v.now)).out == Some(f)
    case Clock(now) => now == Ms(v.now)
    case Judged(_) => true
    case SendTried(_, _, _, _, ok, _) => ok
    case _ => false
  }

  /** What the event makes of the ECU. */
  function EcuAfter(s: Setup, v: Env, e: Event): (r: Vecu.Ecu)
    requires Vecu.Sound(v.ecu)
    ensures Vecu.Sound(r)
  {
    Vecu.PollKeepsSound(s.spec, s.frameUs, v.ecu, Us(v.now));
    var polled := Vecu.Poll(s.spec, s.frameUs, v.ecu, Us(v.now)).ecu;
    if e.NoFrame? || e.Received? then polled
    else if e.SendTried? then
      var listening := if v.ecu.phase == Vecu.AwaitFc then polled else v.ecu;
      Vecu.DeliverKeepsSound(s.spec, s.frameUs, listening, e.sent, Us(v.now));
      Vecu.Deliver(s.spec, s.frameUs, listening, e.sent, Us(v.now))
    else v.ecu
  }

  /** The longest sleep that is not late for the ECU's next frame or for the deadline. */
  function Asleep(e: Vecu.Ecu, d: Deadline, now: nat): nat {
    var untilFrame := if !Vecu.Scheduled(e) then WORD
                      else if Vecu.Due(e.due, Us(now)) then 0 else (e.due - Us(now)) % WORD;
    var untilDeadline := if d.Never? then WORD else (d.ms - Ms(now)) % WORD * 1000 - now % 1000;
    if untilFrame < untilDeadline then untilFrame else if untilDeadline < 0 then 0 else untilDeadline
  }

  /** How long after a call the next one may come: `busy`, and the sleep where the wait sleeps, after
      a clock reading that was too early. */
  function Longest(s: Setup, d: Dialogue, v: Env, e: Event): nat
    requires Vecu.Sound(v.ecu)
  {
    s.busy + if e.Clock? && d.phase == Waiting(Time) then Asleep(EcuAfter(s, v, e), ClientOf(s.ctx, d).deadline, v.now) else 0
  }

  /** ECU and clock after the events; `gaps` are the times from each call to the next. */
  function EnvAfter(s: Setup, v: Env, es: seq<Event>, gaps: seq<nat>): (r: Env)
    requires Vecu.Sound(v.ecu) && |gaps| == |es|
    ensures Vecu.Sound(r.ecu)
  {
    if es == [] then v
    else
      var front := EnvAfter(s, v, es[..|es| - 1], gaps[..|es| - 1]);
      Env(EcuAfter(s, front, es[|es| - 1]), front.now + gaps[|es| - 1])
  }

  /** The record `es` is what the loop leaves in this environment: every event is met, and no call
      comes later than it should. */
  predicate Plays(s: Setup, v: Env, es: seq<Event>, gaps: seq<nat>)
    requires Vecu.Sound(v.ecu)
  {
    |gaps| == |es|
    && (es == []
        || (var front, e := es[..|es| - 1], es[|es| - 1];
            Plays(s, v, front, gaps[..|es| - 1])
            && var now := EnvAfter(s, v, front, gaps[..|es| - 1]);
               Meets(s, now, e) && gaps[|es| - 1] <= Longest(s, DialogueRun(s.ctx, front), now, e)))
  }

  // ---------- The reply ----------

  function Ahead(s: Setup): nat { if s.pendingMs > 0 then 1 else 0 }

  /** How many frames the ECU sends. */
  function Total(s: Setup): nat { Ahead(s) + FrameCount(|s.answer|) }

  function FrameAt(s: Setup, k: nat): CanFrame
    requires k < Total(s)
  {
    Frame(s.spec.reply, if k < Ahead(s) then Padded([3, 0x7F, s.sid, 0x78]) else SegmentAt(s.answer, k - Ahead(s)))
  }

  /** The first n of them. */
  function Reply(s: Setup, n: nat): (fs: seq<CanFrame>)
    requires n <= Total(s)
    ensures |fs| == n
  {
    seq(n, k requires 0 <= k < n => FrameAt(s, k))
  }

  /** What the ECU says, message by message. */
  function Messages(s: Setup): seq<seq<byte>> {
    (if s.pendingMs > 0 then [[0x7F, s.sid, 0x78]] else []) + [s.answer]
  }

  /** The frames are the segmentation of the messages. */
  lemma ReplyIsMessages(s: Setup)
    ensures Reply(s, Total(s)) == Padding.OnBus(s.spec.reply, CanScan.SegmentAll(Messages(s)))
  {
    hide SegmentAt, Padded, CanScan.SegmentAll, FrameCount;
    var pending: seq<byte> := [0x7F, s.sid, 0x78];
    var segments := CanScan.SegmentAll(Messages(s));
    OneMessage(s.answer);
    if s.pendingMs > 0 {
      TwoMessages(pending, s.answer);
      PendingSegment(s.sid);
      assert segments == Segment(pending) + Segment(s.answer);
    } else {
      assert Messages(s) == [s.answer];
    }
    forall k | 0 <= k < Total(s) ensures FrameAt(s, k).data == segments[k] {}
  }

  lemma TwoMessages(m: seq<byte>, n: seq<byte>)
    ensures CanScan.SegmentAll([m] + [n]) == Segment(m) + Segment(n)
  {
    OneMessage(m);
    assert ([m] + [n])[..1] == [m];
  }

  lemma PendingSegment(sid: byte)
    ensures FrameCount(3) == 1 && SegmentAt([0x7F, sid, 0x78], 0) == Padded([3, 0x7F, sid, 0x78])
  {
    assert [3] + [0x7F, sid, 0x78] == [3, 0x7F, sid, 0x78];
  }

  lemma OneMessage(m: seq<byte>)
    ensures CanScan.SegmentAll([m]) == Segment(m)
  {
    assert [m][..0] == [];
  }

  // ---------- When the two ends fit together ----------

  /** The flow-control frame that the settings give for this ECU's first frame. */
  function OurFc(s: Setup): CanFrame { FlowControlFrame(s.ctx.s, s.ctx.p, FrameAt(s, Ahead(s))) }

  /** The spacing that its third byte asks for, in microseconds. */
  function Gap(s: Setup): nat
    requires |OurFc(s).data| >= 3
  {
    Vecu.Apart(OurFc(s).data[2], s.frameUs)
  }

  predicate Long(s: Setup) { |s.answer| > 7 }

  /** The answer is 1 to 4095 bytes, and not 7F xx 78, a response-pending message itself; the reply id passes the
      filter; there is no count digit. A pause that the ECU announces is shorter than the 5 s it gets
      (by 1 ms and the time of one call). For an answer of more than one frame, flow control is on,
      reaches the ECU, and says clear-to-send, no block limit, with a spacing as much below the AT ST
      window. */
  predicate Fits(s: Setup) {
    1 <= |s.answer| <= 4095 && !(|s.answer| == 3 && s.answer[0] == 0x7F && s.answer[2] == 0x78)
    && s.ctx.want.Accepts(s.spec.reply)
    && s.ctx.maxResponses < 0 && s.busy <= 100_000 && s.frameUs <= 1000
    && s.pendingMs * 1000 + s.busy + 1000 <= PENDING_WAIT_MS * 1000
    && (Long(s) ==>
          s.ctx.s.cfc && OurFc(s).id == s.spec.physical && |OurFc(s).data| >= 3 && OurFc(s).data[0] == 0x30
          && OurFc(s).data[1] == 0 && Gap(s) + s.busy + 1000 <= FirstWaitMs(s.ctx.s) * 1000)
  }

  /** The wait begins at `v.now`, and the ECU's first frame is due at `dueAt`, inside the ST window. */
  predicate Begins(s: Setup, v: Env, dueAt: nat) {
    Vecu.Sound(v.ecu) && HasSent(s, v.ecu, 0, dueAt)
    && v.now <= dueAt + s.busy && dueAt + s.busy + 1000 <= v.now + FirstWaitMs(s.ctx.s) * 1000
  }

  // ---------- Both clocks, unwrapped ----------

  lemma DeadlineExact(limit: nat, now: nat)
    requires limit < now / 1000 + WORD / 2 && now / 1000 < limit + WORD / 2
    ensures At(limit % WORD).Passed(Ms(now)) <==> limit <= now / 1000
  {
    Links.DifferenceWraps(now / 1000, limit);
  }

  lemma DueExact(dueAt: nat, now: nat)
    requires dueAt < now + WORD / 2 && now < dueAt + WORD / 2
    ensures Vecu.Due(Us(dueAt), Us(now)) <==> dueAt <= now
  {
    Links.DifferenceWraps(now, dueAt);
  }

  lemma LaterExact(at: nat, us: nat)
    ensures Vecu.Later(Us(at), us) == Us(at + us)
  {
  }

  lemma UntilExact(at: nat, now: nat)
    requires now < at < now + WORD
    ensures (Us(at) - Us(now)) % WORD == at - now
  {
  }

  lemma UntilDeadline(limit: nat, now: nat)
    requires now / 1000 < limit < now / 1000 + WORD
    ensures (limit % WORD - Ms(now)) % WORD * 1000 - now % 1000 == limit * 1000 - now
  {
    var d := limit - now / 1000;
    assert (limit % WORD - now / 1000 % WORD) % WORD == d % WORD == d;
  }

  // ---------- The waiting end, frame by frame ----------

  /** How many frames of the answer itself are among the first n. */
  function Answered(s: Setup, n: nat): nat { if n <= Ahead(s) then 0 else n - Ahead(s) }

  function OwedAfter(s: Setup, n: nat): Text.Table
    requires n <= Total(s)
  {
    if !Long(s) || Answered(s, n) == 0 then [] else [Text.Entry(s.spec.reply, Total(s) - n)]
  }

  /** The first n frames are in, in order, and the deadline is at `limit`. */
  predicate HasHeard(s: Setup, c: Client, n: nat, limit: nat)
    requires n <= Total(s)
  {
    c == Client(Reply(s, n), Answered(s, n) % 256, OwedAfter(s, n), At(limit % WORD), Listening)
  }

  /** Whether frame n is answered with flow control. */
  predicate Grants(s: Setup, n: nat) { Long(s) && n == Ahead(s) }

  /** How long the wait is once frame n is in. */
  function WaitMs(s: Setup, n: nat): (ms: nat)
    ensures 0 < ms <= PENDING_WAIT_MS
  {
    if n < Ahead(s) then PENDING_WAIT_MS else if n + 1 < Total(s) then FirstWaitMs(s.ctx.s) else NextWaitMs(s.ctx.s)
  }

  lemma SingleAnswer(s: Setup)
    requires 1 <= |s.answer| <= 7
    ensures Total(s) == Ahead(s) + 1
    ensures var f := FrameAt(s, Ahead(s)); PciOf(f) == Single && SingleFrameLength(f) == |s.answer|
  {
    var n: int := |s.answer|;
    var data := SegmentAt(s.answer, 0);
    assert data[0] == n && n / 16 == 0 && n % 16 == n;
  }

  lemma LongAnswer(s: Setup, k: nat)
    requires 8 <= |s.answer| <= 4095 && Ahead(s) <= k < Total(s)
    ensures var f := FrameAt(s, k);
      PciOf(f) == (if k == Ahead(s) then First else Consecutive) && |f.data| == 8
      && (k == Ahead(s) ==> Text.FramesOwed(f) == Total(s) - Ahead(s) - 1)
  {
    hide SegmentAt, Text.FramesOwed;
    if k == Ahead(s) { FirstSegment(s.answer, s.spec.reply); } else { NextSegment(s.answer, k - Ahead(s)); }
  }

  lemma FirstSegment(answer: seq<byte>, id: CanId)
    requires 8 <= |answer| <= 4095
    ensures var f: CanFrame := Frame(id, SegmentAt(answer, 0));
      PciOf(f) == First && Text.FramesOwed(f) == FrameCount(|answer|) - 1
  {
    FirstSegmentLength(answer, id);
    hide SegmentAt, FirstFrameLength;
  }

  lemma FirstSegmentLength(answer: seq<byte>, id: CanId)
    requires 8 <= |answer| <= 4095
    ensures var f: CanFrame := Frame(id, SegmentAt(answer, 0)); PciOf(f) == First && FirstFrameLength(f) == |answer|
  {
    var n: int := |answer|;
    var data := SegmentAt(answer, 0);
    assert data[0] == 0x10 + n / 256 % 16 && data[1] == n % 256;
  }

  lemma NextSegment(answer: seq<byte>, k: nat)
    requires |answer| > 7 && 0 < k < FrameCount(|answer|)
    ensures SegmentAt(answer, k)[0] / 16 == 2
  {
    assert SegmentAt(answer, k)[0] == 0x20 + k % 16;
  }

  lemma PendingFrame(s: Setup)
    requires s.pendingMs > 0
    ensures IsResponsePending(FrameAt(s, 0))
  {
    var f := FrameAt(s, 0);
    assert f.data[..4] == [3, 0x7F, s.sid, 0x78];
    assert f.data[0] == f.data[..4][0] && f.data[1] == f.data[..4][1] && f.data[3] == f.data[..4][3];
  }

  /** What kind of frame each of the answer's is, and what the wait makes of it. */
  lemma AnswerFrame(s: Setup, k: nat)
    requires Fits(s) && Ahead(s) <= k < Total(s)
    ensures var f := FrameAt(s, k);
      !IsResponsePending(f) && ShownAsResponse(s.ctx.s, f) && (FirstToAnswer(s.ctx, f) <==> Grants(s, k))
      && PciOf(f) == (if !Long(s) then Single else if k == Ahead(s) then First else Consecutive)
      && (Grants(s, k) ==> Text.FramesOwed(f) == Total(s) - Ahead(s) - 1)
  {
    hide SegmentAt, Text.FramesOwed, FlowControlFrame, Gap;
    if Long(s) {
      LongAnswer(s, k);
    } else {
      SingleAnswer(s);
      PendsExactly(s);
    }
    ConsecutiveNeverPends(FrameAt(s, k));
  }

  /** What the adapter takes for response-pending is the three bytes 7F xx 78. */
  lemma PendsExactly(s: Setup)
    requires 1 <= |s.answer| <= 7
    ensures IsResponsePending(FrameAt(s, Ahead(s))) <==> |s.answer| == 3 && s.answer[0] == 0x7F && s.answer[2] == 0x78
  {
    hide SegmentAt;
    SingleAnswer(s);
    var f := FrameAt(s, Ahead(s));
    SegmentData(s.answer);
    assert |s.answer| == 3 ==> f.data[1] == s.answer[0] && f.data[3] == s.answer[2];
  }

  lemma SegmentData(answer: seq<byte>)
    requires 1 <= |answer| <= 7
    ensures forall i :: 0 <= i < |answer| ==> SegmentAt(answer, 0)[1 + i] == answer[i]
  {
    var data := SegmentAt(answer, 0);
    assert data[..1 + |answer|] == [|answer|] + answer;
    forall i | 0 <= i < |answer| ensures data[1 + i] == answer[i] {
      assert data[1 + i] == data[..1 + |answer|][1 + i];
    }
  }

  lemma ConsecutiveNeverPends(f: CanFrame)
    ensures PciOf(f) != Single ==> !IsResponsePending(f)
  {
  }

  lemma ReplyGrows(s: Setup, n: nat)
    requires n < Total(s)
    ensures Reply(s, n + 1) == Reply(s, n) + [FrameAt(s, n)]
  {
    hide FrameAt;
  }

  lemma AtMost587(s: Setup)
    requires 1 <= |s.answer| <= 4095
    ensures Ahead(s) < Total(s) <= 587 && (Long(s) ==> Ahead(s) + 1 < Total(s))
  {
  }

  lemma DeadlineFrom(t: nat, wait: nat)
    requires wait < WORD
    ensures After(Ms(t), wait) == At((t / 1000 + wait) % WORD)
  {
  }

  /** Owed frames: none, all but the first, and one less with each consecutive frame. */
  lemma OwedStep(s: Setup, n: nat)
    requires Fits(s) && Ahead(s) <= n < Total(s)
    ensures Owing(s.ctx, OwedAfter(s, n), FrameAt(s, n), Grants(s, n)) == OwedAfter(s, n + 1)
    ensures Text.AnyOwed(OwedAfter(s, n + 1)) <==> n + 1 < Total(s)
  {
    hide FrameAt, Text.FramesOwed, IsResponsePending, ShownAsResponse, Gap, OurFc;
    AnswerFrame(s, n);
    if !Long(s) { SingleAnswer(s); } else { AtMost587(s); }
    FrameId(s, n);
    var t := OwedAfter(s, n + 1);
    if n + 1 < Total(s) { assert t[0].left > 0; }
  }

  lemma FrameId(s: Setup, n: nat)
    requires n < Total(s)
    ensures FrameAt(s, n).id == s.spec.reply
  {
  }

  /** The next frame of the reply: logged, its flow control counted, and a new deadline: 5 s after a
      response-pending frame, the whole ST window while frames are owed. */
  lemma HeardNextFrame(s: Setup, c: Client, n: nat, limit: nat, t: nat)
    requires Fits(s) && n < Total(s) && HasHeard(s, c, n, limit)
    ensures HasHeard(s, OnFrame(s.ctx, c, Heard(FrameAt(s, n), Ms(t), Grants(s, n))), n + 1, t / 1000 + WaitMs(s, n))
  {
    hide HasHeard, Fits, OnFrame, WaitMs;
    if n < Ahead(s) { HeardPending(s, c, n, limit, t); } else { HeardAnswer(s, c, n, limit, t); }
  }

  lemma HeardPending(s: Setup, c: Client, n: nat, limit: nat, t: nat)
    requires Fits(s) && n < Ahead(s) && HasHeard(s, c, n, limit)
    ensures HasHeard(s, OnFrame(s.ctx, c, Heard(FrameAt(s, n), Ms(t), Grants(s, n))), n + 1, t / 1000 + WaitMs(s, n))
  {
    hide FrameAt, IsResponsePending, Fits, OwedAfter, OnAnswer, Reply;
    FitsParts(s);
    FrameId(s, n);
    ReplyGrows(s, n);
    AtMost587(s);
    DeadlineFrom(t, WaitMs(s, n));
    PendingFrame(s);
    NothingOwedYet(s);
  }

  lemma HeardAnswer(s: Setup, c: Client, n: nat, limit: nat, t: nat)
    requires Fits(s) && Ahead(s) <= n < Total(s) && HasHeard(s, c, n, limit)
    ensures HasHeard(s, OnFrame(s.ctx, c, Heard(FrameAt(s, n), Ms(t), Grants(s, n))), n + 1, t / 1000 + WaitMs(s, n))
  {
    hide FrameAt, FirstWaitMs, NextWaitMs, ShownAsResponse, IsResponsePending, Fits, OwedAfter, Owing, Reply, Text.AnyOwed;
    FitsParts(s);
    FrameId(s, n);
    ReplyGrows(s, n);
    AtMost587(s);
    DeadlineFrom(t, WaitMs(s, n));
    AnswerFrame(s, n);
    OwedStep(s, n);
  }

  lemma NothingOwedYet(s: Setup)
    ensures forall n: nat :: n <= Ahead(s) && n <= Total(s) ==> OwedAfter(s, n) == []
  {
  }

  lemma FitsParts(s: Setup)
    requires Fits(s)
    ensures 1 <= |s.answer| <= 4095 && s.ctx.want.Accepts(s.spec.reply) && s.ctx.maxResponses < 0 && s.busy <= 100_000
    ensures s.frameUs <= 1000 && (Long(s) ==> s.ctx.s.cfc && |OurFc(s).data| >= 3)
  {
  }

  // ---------- The ECU, frame by frame ----------

  /** The ECU has sent n frames and will send the next at `dueAt`. */
  predicate HasSent(s: Setup, e: Vecu.Ecu, n: nat, dueAt: nat) {
    n <= Total(s)
    && if n < Ahead(s) then
         e.phase == Vecu.OwePending && e.tx == s.answer && e.due == Us(dueAt) && e.pendingMs == s.pendingMs
         && e.req != [] && e.req[0] == s.sid
       else if n == Ahead(s) then e.phase == Vecu.OweAnswer && e.tx == s.answer && e.due == Us(dueAt)
       else if n < Total(s) then
         e.phase == Vecu.SendingCf && Vecu.SendingAt(e, s.answer, n - Ahead(s)) && e.due == Us(dueAt)
         && e.blockSize == 0 && |OurFc(s).data| >= 3 && e.stMinUs == Vecu.StMinUs(OurFc(s).data[2])
       else e.phase == Vecu.Idle
  }

  /** The first frame is out, and the ECU waits for our flow control. */
  predicate AwaitsFc(s: Setup, e: Vecu.Ecu, dueAt: nat) {
    e.phase == Vecu.AwaitFc && e.tx == s.answer && e.txSent == 6 && e.txSeq == 1
    && e.due == Us(dueAt + Vecu.FC_TIMEOUT_US)
  }

  /** What the ECU has to say to a request, and how long it announces to need for it. */
  function Said(spec: Vecu.EcuSpec, req: seq<byte>): (seq<byte>, uint16)
    requires req != []
  {
    var found := Vecu.Match(spec.exchanges, req);
    if found.None? then ([0x7F, req[0], if req[0] == 0x22 then 0x31 else 0x11], 0)
    else (found.value.response, found.value.pendingMs)
  }

  /** The request reaches the ECU, and this is what it has to say to it: a request of one frame, sent to
      the ECU's own id, or to all and for an OBD service that it knows. */
  predicate Asks(s: Setup, f: CanFrame) {
    SingleFrameLength(f) > 0
    && var req := f.data[1..1 + SingleFrameLength(f)];
       Said(s.spec, req) == (s.answer, s.pendingMs) && req[0] == s.sid
       && (f.id == s.spec.physical
           || (s.spec.obdFunctional && f.id == Std11(0x7DF) && req[0] < 0x10 && Vecu.Match(s.spec.exchanges, req).Some?))
  }

  /** The ECU, with the request delivered to it. */
  function Asked(s: Setup, e: Vecu.Ecu, f: CanFrame, now: nat): (r: Vecu.Ecu)
    requires Vecu.Sound(e)
    ensures Vecu.Sound(r)
  {
    Vecu.DeliverKeepsSound(s.spec, s.frameUs, e, f, Us(now));
    Vecu.Deliver(s.spec, s.frameUs, e, f, Us(now))
  }

  /** Whatever the ECU was doing, its reply to such a request is due one latency later. */
  lemma RequestStarts(s: Setup, e: Vecu.Ecu, f: CanFrame, now: nat)
    requires Vecu.Sound(e) && Asks(s, f) && s.answer != []
    ensures HasSent(s, Asked(s, e, f, now), 0, now + s.spec.latencyUs)
  {
    hide OurFc, Vecu.Match, FrameCount, Us;
    LaterExact(now, s.spec.latencyUs);
    OneOrMore(s);
  }

  /** With CAF1, a request of up to seven bytes is what the ECU is asked. */
  lemma RequestAsks(s: Setup, bytes: seq<byte>)
    requires s.ctx.s.caf && 1 <= |bytes| <= 7 && Said(s.spec, bytes) == (s.answer, s.pendingMs) && bytes[0] == s.sid
    requires var id := RequestId(s.ctx.s, s.ctx.p);
      id == s.spec.physical
      || (s.spec.obdFunctional && id == Std11(0x7DF) && bytes[0] < 0x10 && Vecu.Match(s.spec.exchanges, bytes).Some?)
    ensures Asks(s, RequestFrame(s.ctx.s, s.ctx.p, bytes))
  {
    hide Vecu.Match, RequestId, RequestFrame, SingleFrameLength;
    RequestCarries(s.ctx.s, s.ctx.p, bytes);
  }

  /** Nothing is due yet. */
  lemma EcuWaits(s: Setup, e: Vecu.Ecu, n: nat, dueAt: nat, now: nat)
    requires Vecu.Sound(e) && HasSent(s, e, n, dueAt)
    requires n < Total(s) ==> now < dueAt < now + WORD / 2
    ensures Vecu.Poll(s.spec, s.frameUs, e, Us(now)) == Vecu.Polled(e, None)
  {
    hide Us, Vecu.Due, OurFc, Vecu.SendingAt;
    if n < Total(s) { DueExact(dueAt, now); }
  }

  lemma EcuPending(s: Setup, e: Vecu.Ecu, dueAt: nat, now: nat)
    requires Vecu.Sound(e) && s.pendingMs > 0 && HasSent(s, e, 0, dueAt) && dueAt <= now < dueAt + WORD / 2
    ensures var polled := Vecu.Poll(s.spec, s.frameUs, e, Us(now));
      polled.out == Some(FrameAt(s, 0)) && HasSent(s, polled.ecu, 1, dueAt + s.pendingMs * 1000)
  {
    hide Us, Vecu.Due, Vecu.Later, Padded, FrameCount;
    DueExact(dueAt, now);
    LaterExact(dueAt, s.pendingMs * 1000);
    OneOrMore(s);
  }

  lemma OneOrMore(s: Setup)
    ensures Ahead(s) < Total(s)
  {
  }

  lemma EcuSingle(s: Setup, e: Vecu.Ecu, dueAt: nat, now: nat)
    requires Vecu.Sound(e) && 1 <= |s.answer| <= 7 && HasSent(s, e, Ahead(s), dueAt) && dueAt <= now < dueAt + WORD / 2
    ensures var polled := Vecu.Poll(s.spec, s.frameUs, e, Us(now));
      polled.out == Some(FrameAt(s, Ahead(s))) && HasSent(s, polled.ecu, Ahead(s) + 1, dueAt)
  {
    hide Us, Vecu.Due, Padded;
    DueExact(dueAt, now);
  }

  lemma EcuFirst(s: Setup, e: Vecu.Ecu, dueAt: nat, now: nat)
    requires Vecu.Sound(e) && 8 <= |s.answer| <= 4095 && HasSent(s, e, Ahead(s), dueAt) && dueAt <= now < dueAt + WORD / 2
    ensures var polled := Vecu.Poll(s.spec, s.frameUs, e, Us(now));
      polled.out == Some(FrameAt(s, Ahead(s))) && AwaitsFc(s, polled.ecu, dueAt)
  {
    hide Us, Vecu.Due, Vecu.Later, FrameCount;
    DueExact(dueAt, now);
    LaterExact(dueAt, Vecu.FC_TIMEOUT_US);
    OneOrMore(s);
  }

  /** Our flow control, in time, starts the rest. */
  lemma EcuStarts(s: Setup, e: Vecu.Ecu, dueAt: nat, now: nat)
    requires Fits(s) && Long(s) && Vecu.Sound(e) && AwaitsFc(s, e, dueAt) && dueAt <= now < dueAt + Vecu.FC_TIMEOUT_US
    ensures Vecu.Poll(s.spec, s.frameUs, e, Us(now)).ecu == e
    ensures HasSent(s, Vecu.Deliver(s.spec, s.frameUs, e, OurFc(s), Us(now)), Ahead(s) + 1, now + s.frameUs)
  {
    hide Gap, OurFc, Us, FirstWaitMs, Vecu.StMinUs, Vecu.Later, Vecu.Due, FrameAt, IsResponsePending;
    AtMost587(s);
    DueExact(dueAt + Vecu.FC_TIMEOUT_US, now);
    LaterExact(now, s.frameUs);
    assert PciOf(OurFc(s)) == FlowControl;
  }

  /** The ECU's next consecutive frame. */
  lemma EcuNext(s: Setup, e: Vecu.Ecu, n: nat, dueAt: nat, now: nat)
    requires Fits(s) && Long(s) && Vecu.Sound(e) && Ahead(s) < n < Total(s) && HasSent(s, e, n, dueAt)
    requires dueAt <= now < dueAt + WORD / 2
    ensures var polled := Vecu.Poll(s.spec, s.frameUs, e, Us(now));
      polled.out == Some(FrameAt(s, n)) && HasSent(s, polled.ecu, n + 1, dueAt + Gap(s))
  {
    hide OurFc, Us, FirstWaitMs, Vecu.StMinUs, Vecu.Later, Vecu.Due, Vecu.Poll, SegmentAt, Vecu.SendingAt, FrameCount,
         IsResponsePending;
    DueExact(dueAt, now);
    LaterExact(dueAt, Gap(s));
    Vecu.GapIsApart(OurFc(s).data[2], s.frameUs);
    Vecu.PolledSending(s.spec, s.frameUs, e, s.answer, n - Ahead(s), Us(now));
  }

  // ---------- What every event keeps ----------

  /** How far the adapter can fall behind the ECU in n frames. */
  function Lag(s: Setup, n: nat): (us: nat)
    requires s.busy <= 100_000
    ensures 3 * s.busy <= us <= 300_000 * (n + 1)
  {
    if n == 0 then 3 * s.busy else Lag(s, n - 1) + 3 * s.busy
  }

  /** No frame is due later than this after the first one, and no wait for the next ends later. */
  function Latest(s: Setup, n: nat): nat
    requires s.busy <= 100_000
  {
    if n == 0 then 0 else Latest(s, n - 1) + Lag(s, n - 1) + 3 * s.busy + 5_000_000
  }

  /** How long before its frame n is due, at most, the ECU was heard of. */
  function Spacing(s: Setup, n: nat): nat
    requires |OurFc(s).data| >= 3 || !Long(s)
  {
    if n <= Ahead(s) then s.pendingMs * 1000 else if Long(s) then Gap(s) else 0
  }

  /** Between two waits, or inside one: n frames are in and n are out; as long as some are missing,
      the next is due (and could be late by one call) before the deadline, and the adapter is not far
      behind it. `at` is where the wait stands, `first` when the first frame was due. */
  predicate InWait(s: Setup, d: Dialogue, v: Env, at: AwaitState, first: nat, dueAt: nat, limit: nat)
    requires Fits(s)
  {
    var n := |d.hs|;
    n <= Total(s) && HasHeard(s, ClientOf(s.ctx, d), n, limit) && HasSent(s, v.ecu, n, dueAt)
    && limit * 1000 <= v.now + 5_000_000 && (at == Look || at == Poll || at == Time)
    && if n < Total(s) then
         dueAt + s.busy < limit * 1000 && dueAt <= first + Latest(s, n)
         && (if at == Time then v.now < dueAt + s.busy
             else v.now + (if at == Look then s.busy else 0) <= dueAt + Lag(s, n))
       else
         limit * 1000 <= first + Latest(s, n)
         && v.now <= limit * 1000 + (match at case Look => s.busy case Poll => 2 * s.busy case _ => 3 * s.busy)
  }

  /** A frame is in hand, with its flow control, if any, out; the clock is about to be read. */
  predicate InStamp(s: Setup, d: Dialogue, v: Env, f: CanFrame, answered: bool, first: nat, dueAt: nat, limit: nat)
    requires Fits(s)
  {
    var n := |d.hs|;
    n < Total(s) && HasHeard(s, ClientOf(s.ctx, d), n, limit) && HasSent(s, v.ecu, n + 1, dueAt)
    && f == FrameAt(s, n) && answered == Grants(s, n)
    && v.now <= first + Latest(s, n) + Lag(s, n) + 3 * s.busy
    && (n + 1 < Total(s) ==>
          dueAt <= v.now + Spacing(s, n + 1) && v.now + 2 * s.busy <= dueAt + Lag(s, n + 1)
          && dueAt <= first + Latest(s, n + 1))
  }

  /** The first frame of a long answer is in hand; our flow control is to be offered, or sent. */
  predicate InReply(s: Setup, d: Dialogue, v: Env, f: CanFrame, late: nat, first: nat, dueAt: nat, limit: nat)
    requires Fits(s)
  {
    var n := |d.hs|;
    n == Ahead(s) && Long(s) && HasHeard(s, ClientOf(s.ctx, d), n, limit) && AwaitsFc(s, v.ecu, dueAt)
    && f == FrameAt(s, n) && dueAt <= v.now <= dueAt + Lag(s, n) + late && dueAt <= first + Latest(s, n)
  }

  predicate InStep(s: Setup, d: Dialogue, v: Env, first: nat, dueAt: nat, limit: nat) {
    Fits(s) && Vecu.Sound(v.ecu)
    && match d.phase
       case Waiting(at) => InWait(s, d, v, at, first, dueAt, limit)
       case Offering(f) => InReply(s, d, v, f, s.busy, first, dueAt, limit)
       case Replying(f) => InReply(s, d, v, f, 2 * s.busy, first, dueAt, limit)
       case Stamping(f, answered) => InStamp(s, d, v, f, answered, first, dueAt, limit)
       case _ => false
  }

  /** The wait is over, and everything was heard. */
  predicate Complete(s: Setup, d: Dialogue, limit: nat) {
    d.phase == Over(ByTime) && |d.hs| == Total(s) && HasHeard(s, ClientOf(s.ctx, d), Total(s), limit)
  }

  lemma NotFarBehind(s: Setup, n: nat)
    requires Fits(s) && n <= Total(s)
    ensures Lag(s, n) <= 300_000 * 588 && (n > 0 ==> Lag(s, n) == Lag(s, n - 1) + 3 * s.busy)
    ensures n > 0 ==> Latest(s, n) == Latest(s, n - 1) + Lag(s, n - 1) + 3 * s.busy + 5_000_000
  {
    AtMost587(s);
  }

  lemma LagStart(s: Setup)
    requires s.busy <= 100_000
    ensures Lag(s, 0) == 3 * s.busy && Latest(s, 0) == 0
  {
  }

  /** A look at the serial line finds nothing. */
  lemma LookKeeps(s: Setup, d: Dialogue, v: Env, e: Event, gap: nat, first: nat, dueAt: nat, limit: nat)
    requires InStep(s, d, v, first, dueAt, limit) && d.phase == Waiting(Look) && Meets(s, v, e) && gap <= Longest(s, d, v, e)
    requires !DialogueStep(s.ctx, d, e).phase.Lost?
    ensures InStep(s, DialogueStep(s.ctx, d, e), Env(EcuAfter(s, v, e), v.now + gap), first, dueAt, limit)
  {
    hide HasHeard, HasSent, Fits, Lag, Latest, Answering, Total, Asleep, Arrived, Vecu.Sound;
  }

  /** No frame is there: the next one is not due yet. */
  lemma PollKeeps(s: Setup, d: Dialogue, v: Env, gap: nat, first: nat, dueAt: nat, limit: nat)
    requires InStep(s, d, v, first, dueAt, limit) && d.phase == Waiting(Poll) && Meets(s, v, NoFrame)
    requires gap <= Longest(s, d, v, NoFrame)
    ensures InStep(s, DialogueStep(s.ctx, d, NoFrame), Env(EcuAfter(s, v, NoFrame), v.now + gap), first, dueAt, limit)
  {
    hide HasHeard, HasSent, Fits, Lag, Latest, Answering, Total, Asleep, Arrived, Vecu.Sound, Vecu.Poll;
    var n := |d.hs|;
    NotFarBehind(s, n);
    FitsParts(s);
    if n < Total(s) && dueAt <= v.now {
      FrameComes(s, v, n, dueAt);
      assert false;
    }
    EcuWaits(s, v.ecu, n, dueAt, v.now);
  }

  /** A frame that is due comes. */
  lemma FrameComes(s: Setup, v: Env, n: nat, dueAt: nat)
    requires Fits(s) && Vecu.Sound(v.ecu) && n < Total(s) && HasSent(s, v.ecu, n, dueAt) && dueAt <= v.now < dueAt + WORD / 2
    ensures Vecu.Poll(s.spec, s.frameUs, v.ecu, Us(v.now)).out == Some(FrameAt(s, n))
  {
    hide HasSent, Vecu.Poll, FrameAt, Us, Gap;
    FitsParts(s);
    if n < Ahead(s) {
      EcuPending(s, v.ecu, dueAt, v.now);
    } else if !Long(s) {
      SingleAnswer(s);
      EcuSingle(s, v.ecu, dueAt, v.now);
    } else if n == Ahead(s) {
      EcuFirst(s, v.ecu, dueAt, v.now);
    } else {
      EcuNext(s, v.ecu, n, dueAt, v.now);
    }
  }

  lemma AsleepUntilFrame(s: Setup, e: Vecu.Ecu, d: Deadline, n: nat, dueAt: nat, now: nat)
    requires HasSent(s, e, n, dueAt) && n < Total(s) && dueAt < now + WORD / 2 && now < dueAt + WORD / 2
    ensures Asleep(e, d, now) <= if dueAt <= now then 0 else dueAt - now
  {
    hide Us, Vecu.Due, OurFc, Vecu.SendingAt, Ms;
    DueExact(dueAt, now);
    if now < dueAt { UntilExact(dueAt, now); }
  }

  lemma AsleepUntilDeadline(e: Vecu.Ecu, limit: nat, now: nat)
    requires now / 1000 < limit < now / 1000 + WORD
    ensures Asleep(e, At(limit % WORD), now) <= limit * 1000 - now
  {
    hide Us, Vecu.Due;
    UntilDeadline(limit, now);
  }

  lemma HeardParts(s: Setup, c: Client, n: nat, limit: nat)
    requires n <= Total(s) && HasHeard(s, c, n, limit)
    ensures c.deadline == At(limit % WORD) && c.ending == Listening && |c.log| == n && c.log == Reply(s, n)
  {
  }

  /** The clock in a wait: too early for the deadline as long as a frame is missing; and the sleep
      after it is not late. */
  lemma TimeKeeps(s: Setup, d: Dialogue, v: Env, e: Event, gap: nat, first: nat, dueAt: nat, limit: nat)
    requires InStep(s, d, v, first, dueAt, limit) && d.phase == Waiting(Time) && e.Clock?
    requires Meets(s, v, e) && gap <= Longest(s, d, v, e)
    ensures var d' := DialogueStep(s.ctx, d, e);
      Complete(s, d', limit) || InStep(s, d', Env(EcuAfter(s, v, e), v.now + gap), first, dueAt, limit)
  {
    hide HasHeard, HasSent, Fits, Lag, Latest, Answering, Total, Asleep, Arrived, Vecu.Sound, Vecu.Poll, Deadline.Passed;
    var n, c := |d.hs|, ClientOf(s.ctx, d);
    NotFarBehind(s, n);
    FitsParts(s);
    HeardParts(s, c, n, limit);
    DeadlineExact(limit, v.now);
    if n < Total(s) {
      AsleepUntilFrame(s, v.ecu, c.deadline, n, dueAt, v.now);
    } else if v.now / 1000 < limit {
      AsleepUntilDeadline(v.ecu, limit, v.now);
    }
  }

  /** The first frame of a long answer calls for flow control. */
  lemma FirstKeeps(s: Setup, d: Dialogue, v: Env, e: Event, gap: nat, first: nat, dueAt: nat, limit: nat)
    requires InStep(s, d, v, first, dueAt, limit) && d.phase == Waiting(Poll) && dueAt <= v.now && gap <= s.busy
    requires Grants(s, |d.hs|) && e == Received(FrameAt(s, |d.hs|), Some(Normal))
    ensures InStep(s, DialogueStep(s.ctx, d, e), Env(EcuAfter(s, v, e), v.now + gap), first, dueAt, limit)
  {
    hide HasHeard, Fits, Lag, Latest, Answering, Vecu.Sound, Vecu.Poll, FrameAt, IsResponsePending, HasSent, AwaitsFc, Us,
         ShownAsResponse, FrameCount;
    var n, c := |d.hs|, ClientOf(s.ctx, d);
    NotFarBehind(s, n);
    AtMost587(s) by { FitsParts(s); }
    FitsParts(s);
    HeardParts(s, c, n, limit);
    AnswerFrame(s, n);
    EcuFirst(s, v.ecu, dueAt, v.now);
  }

  /** When the frame after this one, which needs no flow control, is due. */
  function NextDue(s: Setup, n: nat, dueAt: nat): nat
    requires |OurFc(s).data| >= 3 || !Long(s)
  {
    dueAt + Spacing(s, n + 1)
  }

  lemma EcuGoesOn(s: Setup, v: Env, n: nat, dueAt: nat)
    requires Fits(s) && Vecu.Sound(v.ecu) && n < Total(s) && !Grants(s, n) && HasSent(s, v.ecu, n, dueAt)
    requires dueAt <= v.now < dueAt + WORD / 2
    ensures HasSent(s, Vecu.Poll(s.spec, s.frameUs, v.ecu, Us(v.now)).ecu, n + 1, NextDue(s, n, dueAt))
  {
    hide HasSent, Vecu.Poll, FrameAt, Us, Gap, Fits, FrameCount;
    FitsParts(s);
    if n < Ahead(s) {
      EcuPending(s, v.ecu, dueAt, v.now);
    } else if !Long(s) {
      SingleAnswer(s);
      EcuSingle(s, v.ecu, dueAt, v.now);
    } else {
      EcuNext(s, v.ecu, n, dueAt, v.now);
    }
  }

  /** Any other frame is settled at once. */
  lemma FrameKeeps(s: Setup, d: Dialogue, v: Env, e: Event, gap: nat, first: nat, dueAt: nat, limit: nat)
    requires InStep(s, d, v, first, dueAt, limit) && d.phase == Waiting(Poll) && dueAt <= v.now && gap <= s.busy
    requires |d.hs| < Total(s) && !Grants(s, |d.hs|) && e == Received(FrameAt(s, |d.hs|), Some(Normal))
    ensures var due := NextDue(s, |d.hs|, dueAt);
      InStep(s, DialogueStep(s.ctx, d, e), Env(EcuAfter(s, v, e), v.now + gap), first, due, limit)
  {
    hide HasHeard, Fits, Lag, Latest, Answering, Vecu.Sound, Vecu.Poll, FrameAt, HasSent, Us, OnFrame, FrameCount, Spacing,
         NeedsReply, NextDue;
    var n, c := |d.hs|, ClientOf(s.ctx, d);
    NotFarBehind(s, n);
    FitsParts(s);
    FrameId(s, n);
    StampBounds(s, n, v.now, gap, first, dueAt);
    HeardParts(s, c, n, limit);
    NoReplyNeeded(s, c, n);
    EcuGoesOn(s, v, n, dueAt);
    HeardNextFrame(s, c, n, limit, 0);
    HeardParts(s, OnFrame(s.ctx, c, Heard(FrameAt(s, n), Ms(0), Grants(s, n))), n + 1, 0 + WaitMs(s, n));
    assert DialogueStep(s.ctx, d, e) == d.(phase := Stamping(FrameAt(s, n), false));
  }

  lemma StampBounds(s: Setup, n: nat, now: nat, gap: nat, first: nat, dueAt: nat)
    requires Fits(s) && n < Total(s) && gap <= s.busy && dueAt <= now <= dueAt + Lag(s, n) && dueAt <= first + Latest(s, n)
    ensures var t, due := now + gap, NextDue(s, n, dueAt);
      t <= first + Latest(s, n) + Lag(s, n) + 3 * s.busy
      && (n + 1 < Total(s) ==>
            due <= t + Spacing(s, n + 1) && t + 2 * s.busy <= due + Lag(s, n + 1) && due <= first + Latest(s, n + 1))
  {
    hide Fits, Lag, Latest, Spacing, Total;
    FitsParts(s);
    NotFarBehind(s, n);
    NotFarBehind(s, n + 1);
    SpacingFits(s, n);
  }

  lemma NoReplyNeeded(s: Setup, c: Client, n: nat)
    requires Fits(s) && n < Total(s) && !Grants(s, n)
    ensures !NeedsReply(s.ctx, c, FrameAt(s, n))
  {
    hide FrameAt, ShownAsResponse;
    if n < Ahead(s) { PendingFrame(s); } else { AnswerFrame(s, n); }
  }

  /** The spacing before frame n + 1 fits into the wait for it. */
  lemma SpacingFits(s: Setup, n: nat)
    requires Fits(s) && n < Total(s)
    ensures Spacing(s, n + 1) <= 5_000_000
    ensures n + 1 < Total(s) ==> Spacing(s, n + 1) + s.busy + 1000 <= WaitMs(s, n) * 1000
    ensures Long(s) && n >= Ahead(s) ==> s.frameUs <= Spacing(s, n + 1)
  {
    hide OurFc, FirstWaitMs, IsResponsePending, FrameAt;
    if !Long(s) { SingleAnswer(s); }
  }

  /** The guard is offered our flow control. */
  lemma OfferKeeps(s: Setup, d: Dialogue, v: Env, e: Event, gap: nat, first: nat, dueAt: nat, limit: nat)
    requires InStep(s, d, v, first, dueAt, limit) && d.phase.Offering? && gap <= s.busy
    requires e == Judged(FlowControlFrame(s.ctx.s, s.ctx.p, d.phase.first))
    ensures InStep(s, DialogueStep(s.ctx, d, e), Env(EcuAfter(s, v, e), v.now + gap), first, dueAt, limit)
  {
    hide HasHeard, Fits, Lag, Latest, Answering, Vecu.Sound, FrameAt, AwaitsFc, FrameCount, FlowControlFrame;
  }

  /** Our flow control goes out, and starts the rest. */
  lemma SendKeeps(s: Setup, d: Dialogue, v: Env, e: Event, gap: nat, first: nat, dueAt: nat, limit: nat)
    requires InStep(s, d, v, first, dueAt, limit) && d.phase.Replying? && gap <= s.busy
    requires e.SendTried? && e == FlowEvent(s.ctx, d.phase.first, true, e.onTcp)
    ensures InStep(s, DialogueStep(s.ctx, d, e), Env(EcuAfter(s, v, e), v.now + gap), first, v.now + s.frameUs, limit)
  {
    hide HasHeard, Fits, Lag, Latest, Answering, Vecu.Sound, Vecu.Poll, Vecu.Deliver, FrameAt, HasSent, Us, OnFrame, FrameCount,
         Spacing, FlowControlFrame;
    var n, c := |d.hs|, ClientOf(s.ctx, d);
    LagStart(s) by { FitsParts(s); }
    NotFarBehind(s, n);
    FitsParts(s);
    AtMost587(s);
    NotFarBehind(s, n + 1);
    EcuStarts(s, v.ecu, dueAt, v.now);
    HeardNextFrame(s, c, n, limit, 0);
    HeardParts(s, OnFrame(s.ctx, c, Heard(FrameAt(s, n), Ms(0), Grants(s, n))), n + 1, 0 + WaitMs(s, n));
    SpacingFits(s, n);
    assert e.sent == OurFc(s);
    assert DialogueStep(s.ctx, d, e) == d.(phase := Stamping(FrameAt(s, n), true));
  }

  /** The clock after a frame: a new deadline, before which the next frame is due. */
  lemma StampKeeps(s: Setup, d: Dialogue, v: Env, e: Event, gap: nat, first: nat, dueAt: nat, limit: nat)
    requires InStep(s, d, v, first, dueAt, limit) && d.phase.Stamping? && e == Clock(Ms(v.now)) && gap <= s.busy
    ensures InStep(s, DialogueStep(s.ctx, d, e), Env(EcuAfter(s, v, e), v.now + gap), first, dueAt,
                   v.now / 1000 + WaitMs(s, |d.hs|))
  {
    hide HasHeard, Fits, Lag, Latest, Answering, Vecu.Sound, FrameAt, HasSent, Us, OnFrame, FrameCount, Spacing, WaitMs;
    var n, c := |d.hs|, ClientOf(s.ctx, d);
    NotFarBehind(s, n);
    NotFarBehind(s, n + 1);
    FitsParts(s);
    HeardNextFrame(s, c, n, limit, v.now);
    HeardMore(s.ctx, d.start, d.hs, Heard(FrameAt(s, n), Ms(v.now), Grants(s, n)));
    SpacingFits(s, n);
    ClockPlus(v.now, WaitMs(s, n));
  }

  lemma ClockPlus(now: nat, wait: nat)
    requires 0 < wait <= PENDING_WAIT_MS
    ensures var limit := now / 1000 + wait;
      now + wait * 1000 - 1000 < limit * 1000 <= now + wait * 1000 <= now + 5_000_000 && now < limit * 1000
  {
  }

  // ---------- Whole waits ----------

  /** The first clock reading. */
  lemma StartKeeps(s: Setup, v: Env, e: Event, gap: nat, first: nat)
    requires Fits(s) && Begins(s, v, first) && e == Clock(Ms(v.now)) && gap <= s.busy
    ensures InStep(s, DialogueStep(s.ctx, NOT_STARTED, e), Env(EcuAfter(s, v, e), v.now + gap), first, first,
                   v.now / 1000 + FirstWaitMs(s.ctx.s))
  {
    hide Fits, HasSent, FirstWaitMs, Total, FrameCount;
    FitsParts(s);
    LagStart(s);
    DeadlineFrom(v.now, FirstWaitMs(s.ctx.s));
    ClockPlus(v.now, FirstWaitMs(s.ctx.s));
    AtMost587(s);
    NothingOwedYet(s);
    assert Reply(s, 0) == [];
  }

  /** Every event either ends a wait that has everything, or keeps both ends in step. */
  lemma StepKeeps(s: Setup, d: Dialogue, v: Env, e: Event, gap: nat, first: nat, dueAt: nat, limit: nat)
    returns (dueAt': nat, limit': nat)
    requires InStep(s, d, v, first, dueAt, limit) && Meets(s, v, e) && gap <= Longest(s, d, v, e)
    requires !DialogueStep(s.ctx, d, e).phase.Lost?
    ensures var d' := DialogueStep(s.ctx, d, e);
      Complete(s, d', limit') || InStep(s, d', Env(EcuAfter(s, v, e), v.now + gap), first, dueAt', limit')
  {
    hide InWait, InReply, InStamp, HasHeard, Fits, Lag, Latest, Answering, Vecu.Sound, Vecu.Poll, FrameAt, Us, Asleep,
         FlowControlFrame, Arrived, Settled, Complete, Waited;
    dueAt', limit' := dueAt, limit;
    match d.phase
    case Waiting(at) =>
      match at {
      case Look => LookKeeps(s, d, v, e, gap, first, dueAt, limit);
      case Poll =>
        PollTakes(s, d, e);
        if e == NoFrame {
          PollKeeps(s, d, v, gap, first, dueAt, limit);
        } else {
          dueAt' := ArrivalKeeps(s, d, v, e, gap, first, dueAt, limit);
        }
      case Time =>
        TimeTakes(s, d, e);
        TimeKeeps(s, d, v, e, gap, first, dueAt, limit);
      case RestBegins => NotInStep(s, d, v, first, dueAt, limit);
      case Rest(_) => NotInStep(s, d, v, first, dueAt, limit);
      case RestTime(_) => NotInStep(s, d, v, first, dueAt, limit);
      case Woken(_) => NotInStep(s, d, v, first, dueAt, limit);
      case Astray => NotInStep(s, d, v, first, dueAt, limit);
      }
    case Offering(f) => OfferKeeps(s, d, v, e, gap, first, dueAt, limit);
    case Replying(f) =>
      SendKeeps(s, d, v, e, gap, first, dueAt, limit);
      dueAt' := v.now + s.frameUs;
    case Stamping(f, answered) =>
      StampKeeps(s, d, v, e, gap, first, dueAt, limit);
      limit' := v.now / 1000 + WaitMs(s, |d.hs|);
    case Starting => assert false;
    case Over(_) => assert false;
    case Lost => assert false;
  }

  lemma NotInStep(s: Setup, d: Dialogue, v: Env, first: nat, dueAt: nat, limit: nat)
    requires InStep(s, d, v, first, dueAt, limit)
    ensures d.phase.Waiting? ==> d.phase.at == Look || d.phase.at == Poll || d.phase.at == Time
  {
    hide HasHeard, Fits, HasSent;
  }

  lemma PollTakes(s: Setup, d: Dialogue, e: Event)
    requires d.phase == Waiting(Poll) && !DialogueStep(s.ctx, d, e).phase.Lost?
    ensures e == NoFrame || (e.Received? && e == Received(e.frame, Some(Normal)))
  {
    hide Answering, Arrived;
  }

  lemma TimeTakes(s: Setup, d: Dialogue, e: Event)
    requires d.phase == Waiting(Time) && !DialogueStep(s.ctx, d, e).phase.Lost?
    ensures e.Clock?
  {
    hide Answering, Arrived;
  }

  /** A frame comes: it is the next one, and it was due. */
  lemma ArrivalKeeps(s: Setup, d: Dialogue, v: Env, e: Event, gap: nat, first: nat, dueAt: nat, limit: nat)
    returns (dueAt': nat)
    requires InStep(s, d, v, first, dueAt, limit) && d.phase == Waiting(Poll) && Meets(s, v, e) && gap <= s.busy
    requires e.Received? && e == Received(e.frame, Some(Normal))
    ensures InStep(s, DialogueStep(s.ctx, d, e), Env(EcuAfter(s, v, e), v.now + gap), first, dueAt', limit)
  {
    hide HasHeard, HasSent, Fits, Lag, Latest, Answering, Vecu.Sound, Vecu.Poll, FrameAt, Us, Total, Arrived, EcuAfter;
    var n := |d.hs|;
    NotFarBehind(s, n);
    FitsParts(s);
    if n == Total(s) || v.now < dueAt { EcuWaits(s, v.ecu, n, dueAt, v.now); }
    FrameComes(s, v, n, dueAt);
    if Grants(s, n) {
      FirstKeeps(s, d, v, e, gap, first, dueAt, limit);
      dueAt' := dueAt;
    } else {
      FrameKeeps(s, d, v, e, gap, first, dueAt, limit);
      dueAt' := NextDue(s, n, dueAt);
    }
  }

  lemma {:induction false} RunKeeps(s: Setup, v: Env, first: nat, es: seq<Event>, gaps: seq<nat>)
    returns (dueAt: nat, limit: nat)
    requires Fits(s) && Begins(s, v, first) && es != [] && Plays(s, v, es, gaps)
    requires !DialogueRun(s.ctx, es).phase.Lost?
    ensures var d := DialogueRun(s.ctx, es);
      Complete(s, d, limit) || InStep(s, d, EnvAfter(s, v, es, gaps), first, dueAt, limit)
    decreases |es|
  {
    hide InStep, DialogueStep, Complete, Meets, Longest, HasSent, Fits, EcuAfter;
    var front, e := es[..|es| - 1], es[|es| - 1];
    var now := EnvAfter(s, v, front, gaps[..|es| - 1]);
    if front == [] {
      StartTakes(s, v, e, gaps[0]);
      StartKeeps(s, v, e, gaps[0], first);
      dueAt, limit := first, v.now / 1000 + FirstWaitMs(s.ctx.s);
    } else {
      var d := DialogueRun(s.ctx, front);
      if d.phase.Lost? { LostStays(s.ctx, d, e); }
      dueAt, limit := RunKeeps(s, v, first, front, gaps[..|es| - 1]);
      if Complete(s, d, limit) { NothingAfter(s, d, limit, e); }
      dueAt, limit := StepKeeps(s, d, now, e, gaps[|es| - 1], first, dueAt, limit);
    }
  }

  lemma StartTakes(s: Setup, v: Env, e: Event, gap: nat)
    requires Vecu.Sound(v.ecu) && Meets(s, v, e) && gap <= Longest(s, NOT_STARTED, v, e)
    requires !DialogueStep(s.ctx, NOT_STARTED, e).phase.Lost?
    ensures e == Clock(Ms(v.now)) && gap <= s.busy
  {
    hide EcuAfter;
  }

  lemma NothingAfter(s: Setup, d: Dialogue, limit: nat, e: Event)
    requires Complete(s, d, limit)
    ensures DialogueStep(s.ctx, d, e).phase.Lost?
  {
    hide HasHeard;
  }

  /** When any wait for this reply is over, at the latest, after the first frame was due. */
  function Horizon(s: Setup): nat
    requires s.busy <= 100_000
  {
    Latest(s, Total(s)) + 3 * s.busy
  }

  /** Main result: against an ECU whose reply of 1 to 4095 bytes, announced by a response-pending
      message or not, starts inside the ST window and is spaced below it, the record that the wait
      leaves, however its calls and sleeps fall, logs the frames of the reply in order and nothing
      else; the wait ends by its deadline, only when it has every one of them, and it does end. */
  lemma AnswerArrives(s: Setup, v: Env, first: nat, es: seq<Event>, gaps: seq<nat>)
    requires Fits(s) && Begins(s, v, first) && Plays(s, v, es, gaps) && !DialogueRun(s.ctx, es).phase.Lost?
    ensures var d := DialogueRun(s.ctx, es); var log := ClientOf(s.ctx, d).log;
      |d.hs| <= Total(s) <= 587 && log == Reply(s, |d.hs|)
      && (if d.phase.Over? then
            d.phase == Over(ByTime) && log == Padding.OnBus(s.spec.reply, CanScan.SegmentAll(Messages(s)))
          else EnvAfter(s, v, es, gaps).now <= first + Horizon(s))
  {
    hide Fits, Answering, Reply, Meets, Longest, EcuAfter, InStep, Lag, Latest;
    FitsParts(s);
    AtMost587(s);
    if es == [] {
      NothingYet(s, v, first);
    } else {
      var dueAt, limit := RunKeeps(s, v, first, es, gaps);
      var d := DialogueRun(s.ctx, es);
      if d.phase.Over? {
        CompleteParts(s, d, EnvAfter(s, v, es, gaps), first, dueAt, limit);
        ReplyIsMessages(s);
      } else {
        InStepParts(s, d, EnvAfter(s, v, es, gaps), first, dueAt, limit);
      }
    }
  }

  lemma NothingYet(s: Setup, v: Env, first: nat)
    requires Fits(s) && Begins(s, v, first)
    ensures ClientOf(s.ctx, NOT_STARTED).log == Reply(s, 0) && s.busy <= 100_000 && v.now <= first + Horizon(s)
  {
    hide HasSent, Latest;
  }

  lemma CompleteParts(s: Setup, d: Dialogue, v: Env, first: nat, dueAt: nat, limit: nat)
    requires d.phase.Over? && (Complete(s, d, limit) || InStep(s, d, v, first, dueAt, limit))
    ensures d.phase == Over(ByTime) && |d.hs| == Total(s) && ClientOf(s.ctx, d).log == Reply(s, Total(s))
  {
    hide Fits, Answering, Reply;
  }

  lemma InStepParts(s: Setup, d: Dialogue, v: Env, first: nat, dueAt: nat, limit: nat)
    requires !d.phase.Over? && (Complete(s, d, limit) || InStep(s, d, v, first, dueAt, limit))
    ensures |d.hs| <= Total(s) && ClientOf(s.ctx, d).log == Reply(s, |d.hs|) && s.busy <= 100_000
    ensures v.now <= first + Horizon(s)
  {
    hide Answering, Reply, HasSent, Fits, AwaitsFc, Lag, Latest, Total;
    FitsParts(s);
    OneOrMore(s);
    LaterStill(s, |d.hs|);
  }

  lemma {:induction false} LatestGrows(s: Setup, m: nat, n: nat)
    requires s.busy <= 100_000 && m <= n
    ensures Latest(s, m) <= Latest(s, n)
  {
    hide Lag;
    if m < n { LatestGrows(s, m, n - 1); }
  }

  lemma LaterStill(s: Setup, n: nat)
    requires s.busy <= 100_000
    ensures n < Total(s) ==> Latest(s, n) + Lag(s, n) + 3 * s.busy + 5_000_000 <= Latest(s, Total(s))
  {
    hide Lag, Total;
    if n < Total(s) { LatestGrows(s, n + 1, Total(s)); }
  }

  /** The reply starts inside the ST window: latency, one call, and 1 ms fit in it. */
  predicate InReach(s: Setup) { s.spec.latencyUs + s.busy + 1000 <= FirstWaitMs(s.ctx.s) * 1000 }

  /** Main result: a request that went out (at `sentAt`) to an ECU that has this reply to it, on an
      undisturbed bus and with no frame lost, is answered, whatever the ECU was doing (`e`): the outcome is
      Answered, and the log is the reply, frame by frame. */
  lemma AnswerIsReported(s: Setup, e: Vecu.Ecu, sentAt: nat, began: nat, gaps: seq<nat>, f: CanFrame, before: seq<Event>,
                         after: seq<Event>, c: Course)
    requires Fits(s) && Vecu.Sound(e) && Asks(s, f) && InReach(s) && sentAt <= began <= sentAt + s.busy
    requires Went(s.ctx, f, before, after, c) && c.Talked? && !c.health.rxOverflow
    requires Plays(s, Env(Asked(s, e, f, sentAt), began), c.dialogue, gaps)
    ensures OutcomeOf(s.ctx, c) == Exchange.Answered
    ensures LogOf(s.ctx, c) == Padding.OnBus(s.spec.reply, CanScan.SegmentAll(Messages(s)))
  {
    hide Fits, DialogueRun, Answering, Plays, Summary, CanScan.SegmentAll, CourseEvents, Approached, Asks, HasSent, Asked, Vecu.Sound,
         FirstWaitMs;
    FitsParts(s);
    RequestStarts(s, e, f, sentAt);
    AnswerArrives(s, Env(Asked(s, e, f, sentAt), began), sentAt + s.spec.latencyUs, c.dialogue, gaps);
    OverWithAll(s, DialogueRun(s.ctx, c.dialogue));
    SomethingSaid(s);
  }

  lemma OverWithAll(s: Setup, d: Dialogue)
    requires d.phase == Over(ByTime)
    ensures HowEnded(d) == ByTime && !d.phase.Lost?
  {
  }

  lemma SomethingSaid(s: Setup)
    ensures CanScan.SegmentAll(Messages(s)) != []
  {
    hide FrameAt;
    ReplyIsMessages(s);
    OneOrMore(s);
  }
}
