/** One virtual ECU: an ISO-TP server that reassembles requests, answers them, and segments long
    answers under the client's flow control (`VirtualEcu` in lib/vecu/src/vecu.cpp). */
module Vecu {
  import opened CanTypes
  import opened IsoTp

  datatype Exchange = Exchange(request: seq<byte>, response: seq<byte>, pendingMs: uint16)

  datatype EcuSpec = EcuSpec(physical: CanId, reply: CanId, obdFunctional: bool,
                             exchanges: seq<Exchange>, latencyUs: uint16)

  datatype Phase = Idle | OweFc | Receiving | OwePending | OweAnswer | AwaitFc | SendingCf

  const REQUEST_MAX := 64
  const FC_TIMEOUT_US := 1_000_000

  datatype Ecu = Ecu(phase: Phase, due: uint32, functional: bool,
                     req: seq<byte>, reqExpected: nat, reqSeq: byte,
                     tx: seq<byte>, txSent: nat, txSeq: byte,
                     blockSize: byte, blockLeft: byte, stMinUs: nat, pendingMs: uint16)

  /** At or before `now` on the wrapping microsecond clock. */
  predicate Due(at: uint32, now: uint32) { (now - at) % WORD < WORD / 2 }

  function Later(at: uint32, us: nat): uint32 { (at + us) % WORD }

  function FrameUs(rate: Bitrate): nat { if rate == K500 then 230 else 460 }

  function GapUs(stMinUs: nat, frameUs: nat): nat { if stMinUs > frameUs then stMinUs else frameUs }

  function StMinUs(st: byte): (us: nat)
    ensures us <= 127_000
  {
    if st <= 0x7F then st * 1000
    else if 0xF1 <= st <= 0xF9 then (st - 0xF0) * 100
    else 127000
  }

  // ---------- Requests in ----------

  function Match(exchanges: seq<Exchange>, req: seq<byte>): Option<Exchange> {
    if exchanges == [] then None
    else if exchanges[0].request <= req then Some(exchanges[0])
    else Match(exchanges[1..], req)
  }

  /** The first exchange in the list whose request the bytes begin with answers them. */
  lemma {:induction false} FirstMatchAnswers(exchanges: seq<Exchange>, req: seq<byte>, i: nat)
    requires i <= |exchanges| && forall j :: 0 <= j < i ==> !(exchanges[j].request <= req)
    requires i < |exchanges| ==> exchanges[i].request <= req
    ensures Match(exchanges, req) == if i < |exchanges| then Some(exchanges[i]) else None
  {
    if i > 0 { FirstMatchAnswers(exchanges[1..], req, i - 1); }
  }

  function Answer(spec: EcuSpec, e: Ecu, now: uint32): Ecu
    requires e.req != []
  {
    var sid := e.req[0];
    var found := Match(spec.exchanges, e.req);
    if e.functional && (found.None? || sid >= 0x10) then e.(phase := Idle)
    else
      var e' := e.(phase := Idle, due := Later(now, spec.latencyUs));
      if found.None? then
        e'.(tx := [0x7F, sid, if sid == 0x22 then 0x31 else 0x11], pendingMs := 0, phase := OweAnswer)
      else if found.value.response == [] then e'
      else
        e'.(tx := found.value.response, pendingMs := found.value.pendingMs,
            phase := if found.value.pendingMs > 0 then OwePending else OweAnswer)
  }

  function TakeCount(left: nat, dlc: nat): (n: nat)
    requires dlc > 0
    ensures n <= left && n < dlc && n <= 7
  {
    var n := if left > 7 then 7 else left;
    if n > dlc - 1 then dlc - 1 else n
  }

  function DeliverSingle(spec: EcuSpec, e: Ecu, f: CanFrame, now: uint32): Ecu {
    var n := SingleFrameLength(f);
    if n == 0 then e
    else Answer(spec, e.(req := f.data[1..1 + n], functional := f.id != spec.physical), now)
  }

  function DeliverFirst(spec: EcuSpec, e: Ecu, f: CanFrame, now: uint32): Ecu {
    var total := FirstFrameLength(f);
    if total < 7 || total > REQUEST_MAX || |f.data| < 8 then e
    else e.(req := f.data[2..8], reqExpected := total, reqSeq := 1, functional := false,
            phase := OweFc, due := Later(now, spec.latencyUs))
  }

  function DeliverConsecutive(spec: EcuSpec, e: Ecu, f: CanFrame, now: uint32): Ecu
    requires |f.data| > 0 && (e.phase == Receiving ==> |e.req| < e.reqExpected)
  {
    if e.phase != Receiving then e
    else if f.data[0] % 16 != e.reqSeq % 16 then e.(phase := Idle)
    else
      var n := TakeCount(e.reqExpected - |e.req|, |f.data|);
      var e' := e.(reqSeq := (e.reqSeq + 1) % 256, req := e.req + f.data[1..1 + n]);
      if |e'.req| >= e.reqExpected then Answer(spec, e', now) else e'
  }

  function DeliverFlowControl(frameUs: nat, e: Ecu, f: CanFrame, now: uint32): Ecu {
    if e.phase != AwaitFc || |f.data| < 3 then e
    else
      var status := f.data[0] % 16;
      if status == 1 then e.(due := Later(now, FC_TIMEOUT_US))
      else if status != 0 then e.(phase := Idle)
      else e.(blockSize := f.data[1], blockLeft := f.data[1], stMinUs := StMinUs(f.data[2]),
              phase := SendingCf, due := Later(now, frameUs))
  }

  function Deliver(spec: EcuSpec, frameUs: nat, e: Ecu, f: CanFrame, now: uint32): Ecu
    requires e.phase == Receiving ==> |e.req| < e.reqExpected
  {
    var physical := f.id == spec.physical;
    var functional := spec.obdFunctional && f.id == Std11(0x7DF);
    if !physical && !functional then e
    else match PciOf(f)
      case Single => DeliverSingle(spec, e, f, now)
      case First => if physical then DeliverFirst(spec, e, f, now) else e
      case Consecutive => if physical then DeliverConsecutive(spec, e, f, now) else e
      case FlowControl => if physical then DeliverFlowControl(frameUs, e, f, now) else e
      case Other => e
  }

  // ---------- Frames out ----------

  function Scheduled(e: Ecu): bool { e.phase != Idle && e.phase != Receiving }

  datatype Polled = Polled(ecu: Ecu, out: Option<CanFrame>)

  function SendCf(spec: EcuSpec, frameUs: nat, e: Ecu): Polled
    requires e.txSent <= |e.tx|
  {
    var left := |e.tx| - e.txSent;
    var n := if left > 7 then 7 else left;
    var out := Some(Frame(spec.reply, Padded([0x20 + e.txSeq % 16] + e.tx[e.txSent..e.txSent + n])));
    var e' := e.(txSent := e.txSent + n, txSeq := (e.txSeq + 1) % 256);
    if e'.txSent >= |e.tx| then Polled(e'.(phase := Idle), out)
    else if e.blockSize != 0 then
      var b := (e.blockLeft - 1) % 256;
      if b == 0 then
        Polled(e'.(blockLeft := b, phase := AwaitFc, due := Later(e.due, FC_TIMEOUT_US)), out)
      else Polled(e'.(blockLeft := b, due := Later(e.due, GapUs(e.stMinUs, frameUs))), out)
    else Polled(e'.(due := Later(e.due, GapUs(e.stMinUs, frameUs))), out)
  }

  /** What the ECU does when something is due: one frame, or a time-out without one. */
  function Poll(spec: EcuSpec, frameUs: nat, e: Ecu, now: uint32): Polled
    requires e.req != [] || e.phase != OwePending
    requires e.phase == SendingCf ==> e.txSent <= |e.tx|
  {
    if !Scheduled(e) || !Due(e.due, now) then Polled(e, None)
    else match e.phase
      case OweFc =>
        Polled(e.(phase := Receiving), Some(Frame(spec.reply, Padded([0x30, 0, 0]))))
      case OwePending =>
        Polled(e.(phase := OweAnswer, due := Later(e.due, e.pendingMs * 1000)),
               Some(Frame(spec.reply, Padded([3, 0x7F, e.req[0], 0x78]))))
      case OweAnswer =>
        if |e.tx| <= 7 then
          Polled(e.(phase := Idle), Some(Frame(spec.reply, Padded([|e.tx|] + e.tx))))
        else
          Polled(e.(txSent := 6, txSeq := 1, phase := AwaitFc, due := Later(e.due, FC_TIMEOUT_US)),
                 Some(Frame(spec.reply, [0x10 + |e.tx| / 256 % 16, |e.tx| % 256] + e.tx[..6])))
      case SendingCf => SendCf(spec, frameUs, e)
      case _ => Polled(e.(phase := Idle), None)
  }

  /** What every reachable ECU state satisfies. */
  predicate Sound(e: Ecu) {
    |e.req| <= REQUEST_MAX && e.reqExpected <= REQUEST_MAX
    && (e.phase == Receiving || e.phase == OweFc ==> |e.req| < e.reqExpected)
    && (e.phase == OwePending ==> e.req != [])
    && (e.phase == AwaitFc || e.phase == SendingCf ==> 6 <= e.txSent < |e.tx|)
    && e.stMinUs <= 127_000
  }

  lemma DeliverKeepsSound(spec: EcuSpec, frameUs: nat, e: Ecu, f: CanFrame, now: uint32)
    requires Sound(e)
    ensures Sound(Deliver(spec, frameUs, e, f, now))
  {
  }

  lemma PollKeepsSound(spec: EcuSpec, frameUs: nat, e: Ecu, now: uint32)
    requires Sound(e)
    ensures Sound(Poll(spec, frameUs, e, now).ecu)
  {
    hide Padded;
  }

  // ---------- The sender under any flow-control schedule ----------

  datatype Step = DeliverAt(frame: CanFrame, now: uint32) | PollAt(now: uint32)

  /** A flow-control frame that let the sender go on, and when it arrived. */
  datatype Grant = Grant(frame: CanFrame, at: uint32)

  /** A frame on the wire, with its due time, the number of the block it belongs to, and the flow
      control it was sent under. */
  datatype Sent = Sent(frame: CanFrame, due: uint32, block: nat, grant: Option<Grant>)

  /** A run of one ECU: everything it sent, how many clear-to-sends it accepted, the last of them, and
      whether it gave the answer up (overflow, bad status, or no flow control in time). */
  datatype Run = Run(ecu: Ecu, sent: seq<Sent>, blocks: nat, grant: Option<Grant>, abandoned: bool)

  function RunStep(spec: EcuSpec, frameUs: nat, r: Run, step: Step): Run
    requires Sound(r.ecu)
  {
    match step
    case DeliverAt(f, now) =>
      var e := Deliver(spec, frameUs, r.ecu, f, now);
      var granted := r.ecu.phase == AwaitFc && e.phase == SendingCf;
      r.(ecu := e, blocks := if granted then r.blocks + 1 else r.blocks,
         grant := if granted then Some(Grant(f, now)) else r.grant,
         abandoned := r.abandoned || (r.ecu.phase == AwaitFc && e.phase == Idle))
    case PollAt(now) =>
      var p := Poll(spec, frameUs, r.ecu, now);
      Run(p.ecu,
          if p.out.None? then r.sent
          else r.sent + [Sent(p.out.value, r.ecu.due, r.blocks, r.grant)],
          r.blocks, r.grant,
          r.abandoned || (r.ecu.phase == AwaitFc && p.ecu.phase == Idle))
  }

  /** The client starts no new request; anything else may arrive, at any time. */
  predicate NoNewRequest(step: Step) {
    step.DeliverAt? ==> PciOf(step.frame) != Single && PciOf(step.frame) != First
  }

  function RunAll(spec: EcuSpec, frameUs: nat, e: Ecu, steps: seq<Step>): (r: Run)
    requires Sound(e)
    ensures Sound(r.ecu)
  {
    if steps == [] then Run(e, [], 0, None, false)
    else
      var r := RunAll(spec, frameUs, e, steps[..|steps| - 1]);
      var r' := RunStep(spec, frameUs, r, steps[|steps| - 1]);
      assert Sound(r'.ecu) by {
        if steps[|steps| - 1].DeliverAt? {
          DeliverKeepsSound(spec, frameUs, r.ecu, steps[|steps| - 1].frame, steps[|steps| - 1].now);
        } else {
          PollKeepsSound(spec, frameUs, r.ecu, steps[|steps| - 1].now);
        }
      }
      r'
  }

  /** The frames sent so far are the first ones of the segmented answer, in order. */
  predicate SentIsPrefix(spec: EcuSpec, sent: seq<Sent>, answer: seq<byte>) {
    |sent| <= FrameCount(|answer|)
    && forall i :: 0 <= i < |sent| ==> sent[i].frame == Frame(spec.reply, SegmentAt(answer, i))
  }

  /** A clear-to-send: 30, block size, separation time, on the ECU's own id. */
  predicate IsGrant(spec: EcuSpec, g: Grant) {
    g.frame.id == spec.physical && |g.frame.data| >= 3 && g.frame.data[0] == 0x30
  }

  predicate HasGrant(spec: EcuSpec, s: Sent) { s.grant.Some? && IsGrant(spec, s.grant.value) }

  /** How far apart a separation-time byte wants two frames, and never closer than one frame takes:
      00 to 7F are milliseconds, F1 to F9 are 100 to 900 microseconds, all others mean 127 ms. */
  function Apart(st: byte, frameUs: nat): nat {
    if st <= 127 && 1000 * st >= frameUs then 1000 * st
    else if 241 <= st <= 249 && 100 * (st - 240) >= frameUs then 100 * (st - 240)
    else if (127 < st < 241 || st > 249) && frameUs <= 127000 then 127000
    else frameUs
  }

  /** The spacing the ECU keeps is what the separation-time byte asks for. */
  lemma GapIsApart(st: byte, frameUs: nat)
    ensures GapUs(StMinUs(st), frameUs) == Apart(st, frameUs)
  {
  }

  /** No clear-to-send lets out more frames than its second byte says, unless that is 0. */
  predicate BlocksRespected(spec: EcuSpec, sent: seq<Sent>) {
    forall i :: 0 <= i < |sent| && sent[i].block > 0 ==>
      HasGrant(spec, sent[i])
      && var n := sent[i].grant.value.frame.data[1]; (0 < n <= i ==> sent[i - n].block < sent[i].block)
  }

  /** The first frame of a block is due one frame time after its clear-to-send; inside a block, due
      times are as far apart as its third byte asks. */
  predicate SpacingRespected(spec: EcuSpec, frameUs: nat, sent: seq<Sent>) {
    forall i :: 0 < i < |sent| ==>
      HasGrant(spec, sent[i])
      && var g := sent[i].grant.value;
         if sent[i].block == sent[i - 1].block then
           sent[i - 1].grant == Some(g) && sent[i].due == (sent[i - 1].due + Apart(g.frame.data[2], frameUs)) % WORD
         else sent[i].due == (g.at + frameUs) % WORD
  }

  predicate Blocked(sent: seq<Sent>, blocks: nat) {
    forall i :: 0 <= i < |sent| ==> sent[i].block <= blocks
  }

  /** The last `count` frames, and no others, belong to block `block`. */
  predicate TailIsBlock(sent: seq<Sent>, block: nat, count: int) {
    0 <= count <= |sent|
    && forall i :: 0 <= i < |sent| ==> (sent[i].block == block <==> i >= |sent| - count)
  }

  /** When the next frame under grant `g` is due. */
  predicate DueNext(frameUs: nat, sent: seq<Sent>, block: nat, g: Grant, due: uint32)
    requires |g.frame.data| >= 3
  {
    |sent| > 0
    && if sent[|sent| - 1].block == block then
         sent[|sent| - 1].grant == Some(g) && due == (sent[|sent| - 1].due + Apart(g.frame.data[2], frameUs)) % WORD
       else due == (g.at + frameUs) % WORD
  }

  /** The ECU sends as the clear-to-send in force says. */
  predicate UnderGrant(spec: EcuSpec, frameUs: nat, r: Run) {
    r.grant.Some? && IsGrant(spec, r.grant.value)
    && r.ecu.blockSize == r.grant.value.frame.data[1]
    && (if r.ecu.stMinUs > frameUs then r.ecu.stMinUs else frameUs) == Apart(r.grant.value.frame.data[2], frameUs)
    && DueNext(frameUs, r.sent, r.blocks, r.grant.value, r.ecu.due)
  }

  predicate SendingAt(e: Ecu, answer: seq<byte>, n: nat) {
    e.tx == answer && 1 <= n < FrameCount(|answer|) && e.txSent == 7 * n - 1 && e.txSeq == n % 256
  }

  predicate UnderWay(spec: EcuSpec, frameUs: nat, r: Run, answer: seq<byte>) {
    var e, n := r.ecu, |r.sent|;
    SentIsPrefix(spec, r.sent, answer) && BlocksRespected(spec, r.sent)
    && SpacingRespected(spec, frameUs, r.sent) && Blocked(r.sent, r.blocks)
    && match e.phase
       case OweAnswer => e.tx == answer && n == 0 && r.blocks == 0 && !r.abandoned
       case AwaitFc => SendingAt(e, answer, n) && !r.abandoned
       case SendingCf =>
         SendingAt(e, answer, n) && !r.abandoned && r.blocks > 0
         && (e.blockSize != 0 ==> e.blockLeft > 0 && TailIsBlock(r.sent, r.blocks, e.blockSize - e.blockLeft))
         && UnderGrant(spec, frameUs, r)
       case Idle => r.abandoned || n == FrameCount(|answer|)
       case _ => false
  }

  lemma UnderWayStep(spec: EcuSpec, frameUs: nat, r: Run, answer: seq<byte>, step: Step)
    requires Sound(r.ecu) && |answer| > 7 && NoNewRequest(step)
    requires UnderWay(spec, frameUs, r, answer)
    ensures UnderWay(spec, frameUs, RunStep(spec, frameUs, r, step), answer)
  {
    match step
    case DeliverAt(f, now) => DeliveredUnderWay(spec, frameUs, r, answer, f, now);
    case PollAt(now) =>
      if Due(r.ecu.due, step.now) && r.ecu.phase == OweAnswer {
        FirstSent(spec, frameUs, r, answer, now);
      } else if Due(r.ecu.due, step.now) && r.ecu.phase == SendingCf {
        NextSent(spec, frameUs, r, answer, now);
      } else {
        hide SentIsPrefix, BlocksRespected, SpacingRespected, Blocked, TailIsBlock, UnderGrant, SendingAt;
      }
  }

  lemma DeliveredUnderWay(spec: EcuSpec, frameUs: nat, r: Run, answer: seq<byte>, f: CanFrame, now: uint32)
    requires Sound(r.ecu) && |answer| > 7 && NoNewRequest(DeliverAt(f, now))
    requires UnderWay(spec, frameUs, r, answer)
    ensures UnderWay(spec, frameUs, RunStep(spec, frameUs, r, DeliverAt(f, now)), answer)
  {
    hide SentIsPrefix, BlocksRespected, SpacingRespected;
  }

  lemma FirstSent(spec: EcuSpec, frameUs: nat, r: Run, answer: seq<byte>, now: uint32)
    requires Sound(r.ecu) && |answer| > 7 && r.ecu.phase == OweAnswer && Due(r.ecu.due, now)
    requires UnderWay(spec, frameUs, r, answer)
    ensures UnderWay(spec, frameUs, RunStep(spec, frameUs, r, PollAt(now)), answer)
  {
    hide Padded, Later, Due, SendCf;
  }

  lemma ChunkFrame(answer: seq<byte>, e: Ecu, n: nat)
    requires |answer| > 7 && SendingAt(e, answer, n)
    ensures var left := |answer| - e.txSent; var take := if left > 7 then 7 else left;
      left > 0 && Padded([0x20 + e.txSeq % 16] + answer[e.txSent..e.txSent + take]) == SegmentAt(answer, n)
      && e.txSent + take == Carried(|answer|, n + 1)
      && (e.txSent + take >= |answer| <==> n + 1 == FrameCount(|answer|))
  {
    hide Padded;
    CarriedMore(|answer|, n);
    assert e.txSeq % 16 == n % 16;
  }

  /** How much of a long payload n frames carry, and one more. */
  lemma CarriedMore(length: nat, n: nat)
    requires length > 7 && 1 <= n < FrameCount(length)
    ensures Carried(length, n) == 7 * n - 1 < length
    ensures Carried(length, n + 1) == if 7 * n + 6 < length then 7 * n + 6 else length
    ensures n + 1 == FrameCount(length) <==> length <= 7 * n + 6
  {
  }

  lemma ExtendPrefix(spec: EcuSpec, sent: seq<Sent>, s: Sent, answer: seq<byte>)
    requires SentIsPrefix(spec, sent, answer)
    requires |sent| < FrameCount(|answer|) && s.frame == Frame(spec.reply, SegmentAt(answer, |sent|))
    ensures SentIsPrefix(spec, sent + [s], answer)
  {
    hide SegmentAt;
  }

  lemma ExtendBlocks(spec: EcuSpec, sent: seq<Sent>, s: Sent, count: int)
    requires BlocksRespected(spec, sent) && Blocked(sent, s.block) && HasGrant(spec, s)
    requires var n := s.grant.value.frame.data[1]; n != 0 ==> count < n && TailIsBlock(sent, s.block, count)
    ensures BlocksRespected(spec, sent + [s]) && Blocked(sent + [s], s.block)
    ensures s.grant.value.frame.data[1] != 0 ==> TailIsBlock(sent + [s], s.block, count + 1)
  {
  }

  lemma ExtendSpacing(spec: EcuSpec, frameUs: nat, sent: seq<Sent>, s: Sent)
    requires SpacingRespected(spec, frameUs, sent) && HasGrant(spec, s)
    requires DueNext(frameUs, sent, s.block, s.grant.value, s.due)
    ensures SpacingRespected(spec, frameUs, sent + [s])
    ensures var gap := Apart(s.grant.value.frame.data[2], frameUs);
      DueNext(frameUs, sent + [s], s.block, s.grant.value, (s.due + gap) % WORD)
  {
    hide Apart;
  }

  /** The ECU state after the n-th frame went out. */
  lemma PolledSending(spec: EcuSpec, frameUs: nat, e: Ecu, answer: seq<byte>, n: nat, now: uint32)
    requires |answer| > 7 && e.phase == SendingCf && Due(e.due, now) && SendingAt(e, answer, n)
    ensures var p := Poll(spec, frameUs, e, now);
      p.out == Some(Frame(spec.reply, SegmentAt(answer, n)))
      && (n + 1 == FrameCount(|answer|) ==> p.ecu.phase == Idle)
      && (n + 1 < FrameCount(|answer|) ==>
            SendingAt(p.ecu, answer, n + 1) && p.ecu.blockSize == e.blockSize && p.ecu.stMinUs == e.stMinUs
            && p.ecu.phase == (if e.blockSize != 0 && e.blockLeft == 1 then AwaitFc else SendingCf)
            && (e.blockSize != 0 && e.blockLeft > 1 ==> p.ecu.blockLeft == e.blockLeft - 1)
            && (p.ecu.phase == SendingCf ==> p.ecu.due == Later(e.due, GapUs(e.stMinUs, frameUs))))
  {
    hide SegmentAt, Padded, Later, GapUs, Due, Poll, FrameCount;
    LastWhen(answer, n);
    PollIsSend(spec, frameUs, e, now);
    ChunkFrame(answer, e, n);
  }

  lemma PollIsSend(spec: EcuSpec, frameUs: nat, e: Ecu, now: uint32)
    requires e.phase == SendingCf && e.txSent <= |e.tx| && Due(e.due, now)
    ensures Poll(spec, frameUs, e, now) == SendCf(spec, frameUs, e)
  {
    hide SendCf, Due;
  }

  /** A frame is the last one exactly if it takes what is left. */
  lemma LastWhen(answer: seq<byte>, n: nat)
    requires |answer| > 7 && 1 <= n < FrameCount(|answer|)
    ensures n + 1 == FrameCount(|answer|) <==> |answer| - (7 * n - 1) <= 7
    ensures 7 * n - 1 <= |answer|
  {
  }

  lemma NextSent(spec: EcuSpec, frameUs: nat, r: Run, answer: seq<byte>, now: uint32)
    requires Sound(r.ecu) && |answer| > 7 && r.ecu.phase == SendingCf && Due(r.ecu.due, now)
    requires UnderWay(spec, frameUs, r, answer)
    ensures UnderWay(spec, frameUs, RunStep(spec, frameUs, r, PollAt(now)), answer)
  {
    hide SentIsPrefix, BlocksRespected, SpacingRespected, Blocked, TailIsBlock, DueNext, SegmentAt, Poll, Apart;
    var e, n := r.ecu, |r.sent|;
    PolledSending(spec, frameUs, e, answer, n, now);
    var s := Sent(Frame(spec.reply, SegmentAt(answer, n)), e.due, r.blocks, r.grant);
    ExtendPrefix(spec, r.sent, s, answer);
    ExtendBlocks(spec, r.sent, s, e.blockSize - e.blockLeft);
    ExtendSpacing(spec, frameUs, r.sent, s);
  }

  /** A grant in a run is a frame that was delivered in it. */
  predicate GrantsArrived(steps: seq<Step>, r: Run) {
    (r.grant.Some? ==> DeliverAt(r.grant.value.frame, r.grant.value.at) in steps)
    && forall i :: 0 <= i < |r.sent| && r.sent[i].grant.Some? ==>
        DeliverAt(r.sent[i].grant.value.frame, r.sent[i].grant.value.at) in steps
  }

  lemma {:induction false} GrantsCome(spec: EcuSpec, frameUs: nat, e: Ecu, steps: seq<Step>)
    requires Sound(e)
    ensures GrantsArrived(steps, RunAll(spec, frameUs, e, steps))
  {
    hide RunStep, Sound, GrantsArrived;
    if steps == [] {
      NoGrantYet(e);
    } else {
      var front, step := steps[..|steps| - 1], steps[|steps| - 1];
      GrantsCome(spec, frameUs, e, front);
      GrantsGo(spec, frameUs, RunAll(spec, frameUs, e, front), front, step);
      assert steps == front + [step];
    }
  }

  lemma NoGrantYet(e: Ecu)
    ensures GrantsArrived([], Run(e, [], 0, None, false))
  {
  }

  lemma GrantsGo(spec: EcuSpec, frameUs: nat, r: Run, steps: seq<Step>, step: Step)
    requires Sound(r.ecu) && GrantsArrived(steps, r)
    ensures GrantsArrived(steps + [step], RunStep(spec, frameUs, r, step))
  {
    hide Deliver, Poll, Sound;
    assert forall s :: s in steps ==> s in steps + [step];
  }

  /** Main result: whatever flow control arrives and whenever, what the ECU sends of one answer is
      a prefix of its segmentation (sequence numbers 1, 2, ... mod 16), all of it unless it was
      given up; every frame after the first goes out under a clear-to-send that had arrived; none of
      these lets out more frames than its second byte says; and due times follow it, and each other
      inside its block, at the distance that its third byte asks for. */
  lemma {:induction false} SenderFollowsFlowControl(spec: EcuSpec, frameUs: nat, e: Ecu, steps: seq<Step>)
    requires Sound(e) && e.phase == OweAnswer && |e.tx| > 7
    requires forall i :: 0 <= i < |steps| ==> NoNewRequest(steps[i])
    ensures var r := RunAll(spec, frameUs, e, steps);
      SentIsPrefix(spec, r.sent, e.tx) && BlocksRespected(spec, r.sent) && SpacingRespected(spec, frameUs, r.sent)
      && (r.ecu.phase == Idle && !r.abandoned ==> |r.sent| == FrameCount(|e.tx|))
      && UnderWay(spec, frameUs, r, e.tx) && GrantsArrived(steps, r)
  {
    GrantsCome(spec, frameUs, e, steps);
    if steps != [] {
      hide SentIsPrefix, BlocksRespected, SpacingRespected, RunStep, Sound, GrantsArrived;
      var front := steps[..|steps| - 1];
      SenderFollowsFlowControl(spec, frameUs, e, front);
      UnderWayStep(spec, frameUs, RunAll(spec, frameUs, e, front), e.tx, steps[|steps| - 1]);
    }
  }

  // ---------- Requests: the other direction of the round trip ----------

  /** Deliver frames one after the other, polling once after the first (the ECU's own flow
      control) as a client that waits for clear-to-send does. */
  function DeliverAll(spec: EcuSpec, frameUs: nat, e: Ecu, frames: seq<CanFrame>, now: uint32): (r: Ecu)
    requires Sound(e)
    ensures Sound(r)
    decreases |frames|
  {
    if frames == [] then e
    else
      var front := DeliverAll(spec, frameUs, e, frames[..|frames| - 1], now);
      DeliverKeepsSound(spec, frameUs, front, frames[|frames| - 1], now);
      Deliver(spec, frameUs, front, frames[|frames| - 1], now)
  }

  function OnId(id: CanId, segments: seq<seq<byte>>): (r: seq<CanFrame>)
    requires forall i :: 0 <= i < |segments| ==> |segments[i]| <= 8
    ensures |r| == |segments|
    ensures forall i :: 0 <= i < |r| ==> r[i] == Frame(id, segments[i])
  {
    seq(|segments|, i requires 0 <= i < |segments| => Frame(id, segments[i]))
  }

  /** After the first frame and its clear-to-send, k - 1 consecutive frames of a request leave
      the ECU holding exactly what the k frames carried. */
  lemma {:induction false} RequestUnderWay(spec: EcuSpec, frameUs: nat, e: Ecu, p: seq<byte>, k: nat, now: uint32)
    requires Sound(e) && e.phase == Receiving
    requires 8 <= |p| <= REQUEST_MAX && 1 <= k < FrameCount(|p|)
    requires e.req == p[..6] && e.reqExpected == |p| && e.reqSeq == 1 && !e.functional
    ensures DeliverAll(spec, frameUs, e, OnId(spec.physical, Segment(p)[1..k]), now)
      == e.(req := p[..7 * k - 1], reqSeq := k)
    decreases k
  {
    hide Deliver, SegmentAt, FrameCount;
    FrameCountBounds(|p|);
    var frames := OnId(spec.physical, Segment(p)[1..k]);
    if k == 1 {
      assert frames == [];
    } else {
      RequestUnderWay(spec, frameUs, e, p, k - 1, now);
      assert frames[..k - 2] == OnId(spec.physical, Segment(p)[1..k - 1]);
      assert frames[k - 2] == Frame(spec.physical, SegmentAt(p, k - 1));
      var before := e.(req := p[..7 * k - 8], reqSeq := k - 1);
      RequestFrame(spec, frameUs, before, p, k - 1, now);
    }
  }

  lemma FrameCountBounds(length: nat)
    requires length <= REQUEST_MAX
    ensures FrameCount(length) <= 10
    ensures forall k :: 1 <= k < FrameCount(length) ==> 7 * k - 1 <= length
  {
  }

  /** The k-th consecutive frame of a request, taken in order. */
  lemma RequestFrame(spec: EcuSpec, frameUs: nat, e: Ecu, p: seq<byte>, k: nat, now: uint32)
    requires 8 <= |p| <= REQUEST_MAX && 1 <= k < FrameCount(|p|)
    requires e.phase == Receiving && e.reqSeq == k && e.reqExpected == |p|
    requires 7 * k - 1 < |p| && e.req == p[..7 * k - 1]
    ensures var e' := e.(req := p[..Carried(|p|, k + 1)], reqSeq := k + 1);
      Deliver(spec, frameUs, e, Frame(spec.physical, SegmentAt(p, k)), now)
        == if k + 1 < FrameCount(|p|) then e' else Answer(spec, e', now)
  {
    hide Answer, SegmentAt, FrameCount, Carried, TakeCount;
    var f: CanFrame := Frame(spec.physical, SegmentAt(p, k));
    ConsecutiveSegment(p, k);
    CarriedMore(|p|, k);
    assert PciOf(f) == Consecutive && f.data[0] % 16 == k % 16;
  }

  /** What the k-th frame of a long payload holds. */
  lemma ConsecutiveSegment(p: seq<byte>, k: nat)
    requires |p| > 7 && 1 <= k < FrameCount(|p|) && 7 * k - 1 < |p|
    ensures var data, n := SegmentAt(p, k), TakeCount(|p| - (7 * k - 1), 8);
      data[0] == 0x20 + k % 16 && p[..7 * k - 1] + data[1..1 + n] == p[..Carried(|p|, k + 1)]
      && |p[..Carried(|p|, k + 1)]| == 7 * k - 1 + n
  {
    CarriedMore(|p|, k);
    var data, n := SegmentAt(p, k), TakeCount(|p| - (7 * k - 1), 8);
    var chunk := p[7 * k - 1..7 * k - 1 + n];
    assert data[..1 + n] == [0x20 + k % 16] + chunk;
    assert data[1..1 + n] == chunk;
  }

  /** Main result for requests: a request of 8 to 64 bytes, segmented by the client, reaches the
      ECU's service lookup unchanged, whatever the ECU was doing before. */
  lemma SegmentedRequestArrives(spec: EcuSpec, frameUs: nat, e: Ecu, p: seq<byte>, now: uint32, fcAt: uint32)
    requires Sound(e) && 8 <= |p| <= REQUEST_MAX
    requires Due(Later(now, spec.latencyUs), fcAt)
    ensures var first := Deliver(spec, frameUs, e, Frame(spec.physical, SegmentAt(p, 0)), now);
      var fc := Poll(spec, frameUs, first, fcAt);
      Sound(first) && Sound(fc.ecu) && fc.out == Some(Frame(spec.reply, Padded([0x30, 0, 0])))
      && DeliverAll(spec, frameUs, fc.ecu, OnId(spec.physical, Segment(p)[1..]), fcAt)
          == Answer(spec, fc.ecu.(req := p, reqSeq := FrameCount(|p|)), fcAt)
  {
    hide Answer, FrameCount, Deliver, Poll, Padded, SegmentAt, Later, Due;
    FrameCountBounds(|p|);
    AllFramesCarryAll(|p|);
    var n := FrameCount(|p|);
    FirstRequestFrame(spec, frameUs, e, p, now);
    var first := Deliver(spec, frameUs, e, Frame(spec.physical, SegmentAt(p, 0)), now);
    PolledClearToSend(spec, frameUs, first, fcAt);
    var got := Poll(spec, frameUs, first, fcAt).ecu;
    var frames := OnId(spec.physical, Segment(p)[1..]);
    CountAtLeastTwo(|p|);
    RequestUnderWay(spec, frameUs, got, p, n - 1, fcAt);
    assert frames[..n - 2] == OnId(spec.physical, Segment(p)[1..n - 1]);
    assert frames[n - 2] == Frame(spec.physical, SegmentAt(p, n - 1));
    RequestFrame(spec, frameUs, got.(req := p[..7 * n - 8], reqSeq := n - 1), p, n - 1, fcAt);
    assert p[..Carried(|p|, n)] == p;
  }

  lemma PolledClearToSend(spec: EcuSpec, frameUs: nat, e: Ecu, now: uint32)
    requires Sound(e) && e.phase == OweFc && Due(e.due, now)
    ensures Poll(spec, frameUs, e, now)
      == Polled(e.(phase := Receiving), Some(Frame(spec.reply, Padded([0x30, 0, 0]))))
  {
  }

  lemma CountAtLeastTwo(length: nat)
    requires length >= 8
    ensures FrameCount(length) >= 2 && 7 * FrameCount(length) - 8 < length
  {
  }

  lemma FirstRequestFrame(spec: EcuSpec, frameUs: nat, e: Ecu, p: seq<byte>, now: uint32)
    requires Sound(e) && 8 <= |p| <= REQUEST_MAX
    ensures Deliver(spec, frameUs, e, Frame(spec.physical, SegmentAt(p, 0)), now)
      == e.(req := p[..6], reqExpected := |p|, reqSeq := 1, functional := false,
            phase := OweFc, due := Later(now, spec.latencyUs))
  {
    assert SegmentAt(p, 0)[2..8] == p[..6];
  }

  // ---------- The object ----------

  class VirtualEcu {
    const spec: EcuSpec
    const frameUs: nat
    var phase: Phase
    var dueUs: uint32
    var functional: bool
    const req: array<byte>
    var reqLen: nat
    var reqExpected: nat
    var reqSeq: byte
    var tx: seq<byte>
    var txSent: nat
    var txSeq: byte
    var blockSize: byte
    var blockLeft: byte
    var stMinUs: nat
    var pendingMs: uint16

    ghost predicate Valid()
      reads this, req
    {
      req.Length == REQUEST_MAX && reqLen <= REQUEST_MAX && Sound(State())
    }

    ghost function State(): Ecu
      reads this, req
      requires reqLen <= req.Length
    {
      Ecu(phase, dueUs, functional, req[..reqLen], reqExpected, reqSeq, tx, txSent, txSeq,
          blockSize, blockLeft, stMinUs, pendingMs)
    }

    constructor (spec: EcuSpec, rate: Bitrate)
      ensures Valid() && fresh(req) && this.spec == spec && frameUs == FrameUs(rate)
      ensures phase == Idle
    {
      this.spec, frameUs := spec, FrameUs(rate);
      phase, dueUs, functional, reqLen, reqExpected, reqSeq := Idle, 0, false, 0, 0, 0;
      tx, txSent, txSeq, blockSize, blockLeft, stMinUs, pendingMs := [], 0, 0, 0, 0, 0, 0;
      req := new byte[REQUEST_MAX];
    }

    method CopyIn(bytes: seq<byte>)
      requires reqLen + |bytes| <= req.Length
      modifies this`reqLen, req
      ensures reqLen == old(reqLen) + |bytes| && req[..reqLen] == old(req[..reqLen]) + bytes
    {
      forall i | 0 <= i < |bytes| { req[reqLen + i] := bytes[i]; }
      reqLen := reqLen + |bytes|;
    }

    method AnswerRequest(now: uint32)
      requires req.Length == REQUEST_MAX && 0 < reqLen <= REQUEST_MAX && reqExpected <= REQUEST_MAX
      requires stMinUs <= 127_000
      modifies this
      ensures Valid() && State() == Answer(spec, old(State()), now)
    {
      phase := Idle;
      var sid := req[0];
      var found := Match(spec.exchanges, req[..reqLen]);
      if functional && (found.None? || sid >= 0x10) { return; }
      dueUs := Later(now, spec.latencyUs);
      if found.None? {
        tx := [0x7F, sid, if sid == 0x22 then 0x31 else 0x11];
        pendingMs := 0;
        phase := OweAnswer;
        return;
      }
      if found.value.response == [] { return; }
      tx := found.value.response;
      pendingMs := found.value.pendingMs;
      phase := if pendingMs > 0 then OwePending else OweAnswer;
    }

    method DeliverFrame(f: CanFrame, now: uint32)
      requires Valid()
      modifies this, req
      ensures Valid() && State() == Deliver(spec, frameUs, old(State()), f, now)
    {
      hide DeliverSingle, DeliverFirst, DeliverConsecutive, DeliverFlowControl;
      var physical := f.id == spec.physical;
      if !physical && !(spec.obdFunctional && f.id == Std11(0x7DF)) { return; }
      match PciOf(f)
      case Single => TakeSingle(f, now);
      case First => if physical { TakeFirst(f, now); }
      case Consecutive => if physical { TakeConsecutive(f, now); }
      case FlowControl => if physical { TakeFlowControl(f, now); }
      case Other =>
    }

    method TakeSingle(f: CanFrame, now: uint32)
      requires Valid()
      modifies this, req
      ensures Valid() && State() == DeliverSingle(spec, old(State()), f, now)
    {
      hide Answer;
      var n := SingleFrameLength(f);
      if n == 0 { return; }
      reqLen := 0;
      CopyIn(f.data[1..1 + n]);
      assert req[..reqLen] == f.data[1..1 + n];
      functional := f.id != spec.physical;
      AnswerRequest(now);
    }

    method TakeFirst(f: CanFrame, now: uint32)
      requires Valid()
      modifies this, req
      ensures Valid() && State() == DeliverFirst(spec, old(State()), f, now)
    {
      var total := FirstFrameLength(f);
      if total < 7 || total > req.Length || |f.data| < 8 { return; }
      reqLen := 0;
      CopyIn(f.data[2..8]);
      assert req[..reqLen] == f.data[2..8];
      reqExpected, reqSeq, functional := total, 1, false;
      phase, dueUs := OweFc, Later(now, spec.latencyUs);
    }

    method TakeConsecutive(f: CanFrame, now: uint32)
      requires Valid() && |f.data| > 0
      modifies this, req
      ensures Valid() && State() == DeliverConsecutive(spec, old(State()), f, now)
    {
      hide Answer;
      if phase != Receiving { return; }
      if f.data[0] % 16 != reqSeq % 16 {
        phase := Idle;
        return;
      }
      reqSeq := (reqSeq + 1) % 256;
      var n := TakeCount(reqExpected - reqLen, |f.data|);
      CopyIn(f.data[1..1 + n]);
      if reqLen >= reqExpected { AnswerRequest(now); }
    }

    method TakeFlowControl(f: CanFrame, now: uint32)
      requires Valid()
      modifies this
      ensures Valid() && State() == DeliverFlowControl(frameUs, old(State()), f, now)
    {
      hide StMinUs;
      if phase != AwaitFc || |f.data| < 3 { return; }
      var status := f.data[0] % 16;
      if status == 1 {
        dueUs := Later(now, FC_TIMEOUT_US);
        return;
      }
      if status != 0 {
        phase := Idle;
        return;
      }
      blockSize, blockLeft, stMinUs := f.data[1], f.data[1], StMinUs(f.data[2]);
      phase, dueUs := SendingCf, Later(now, frameUs);
    }

    /** Acts on whatever has come due: sends the next frame, or gives up waiting and sends none. */
    method PollFrame(now: uint32) returns (out: Option<CanFrame>)
      requires Valid()
      modifies this
      ensures Valid() && Polled(State(), out) == Poll(spec, frameUs, old(State()), now)
    {
      hide Padded, Later, GapUs, Due, SendCf;
      PollKeepsSound(spec, frameUs, State(), now);
      if phase == Idle || phase == Receiving || !Due(dueUs, now) { return None; }
      match phase
      case OweFc =>
        phase := Receiving;
        return Some(Frame(spec.reply, Padded([0x30, 0, 0])));
      case OwePending =>
        phase, dueUs := OweAnswer, Later(dueUs, pendingMs * 1000);
        return Some(Frame(spec.reply, Padded([3, 0x7F, req[0], 0x78])));
      case OweAnswer =>
        if |tx| <= 7 {
          phase := Idle;
          return Some(Frame(spec.reply, Padded([|tx|] + tx)));
        }
        txSent, txSeq := 6, 1;
        phase, dueUs := AwaitFc, Later(dueUs, FC_TIMEOUT_US);
        return Some(Frame(spec.reply, [0x10 + |tx| / 256 % 16, |tx| % 256] + tx[..6]));
      case SendingCf =>
        out := SendConsecutive();
      case AwaitFc =>
        phase := Idle;
        out := None;
      case Idle => out := None;
      case Receiving => out := None;
    }

    method SendConsecutive() returns (out: Option<CanFrame>)
      requires Valid() && phase == SendingCf
      modifies this
      ensures reqLen == old(reqLen) && Polled(State(), out) == SendCf(spec, frameUs, old(State()))
    {
      hide Padded, Later, GapUs;
      var left := |tx| - txSent;
      var n := if left > 7 then 7 else left;
      out := Some(Frame(spec.reply, Padded([0x20 + txSeq % 16] + tx[txSent..txSent + n])));
      txSent, txSeq := txSent + n, (txSeq + 1) % 256;
      if txSent >= |tx| {
        phase := Idle;
        return;
      }
      if blockSize != 0 {
        blockLeft := (blockLeft - 1) % 256;
        if blockLeft == 0 {
          phase, dueUs := AwaitFc, Later(dueUs, FC_TIMEOUT_US);
          return;
        }
      }
      dueUs := Later(dueUs, GapUs(stMinUs, frameUs));
    }

    method NextDue() returns (at: Option<uint32>)
      requires Valid()
      ensures at == if Scheduled(State()) then Some(State().due) else None
    {
      return if phase == Idle || phase == Receiving then None else Some(dueUs);
    }
  }
}
