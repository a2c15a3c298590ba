/** The controller, the clock and the serial line as the core sees them (lib/elm/src/hal.h). Every
    call is answered by a script and put on record. */
module Bus {
  import opened CanTypes
  import opened WriteGuard
  import opened Links
  import opened Record

  /** One answer of the outside world to one call; `errors` and `lost` are what has happened on the
      bus since the call before. */
  datatype Obs = Obs(frame: Option<CanFrame>, tick: nat, ok: bool, tec: byte, rec: byte, errors: uint16, lost: bool,
                     text: string)

  const SILENCE := Obs(None, 0, false, 0, 0, 0, false, "")

  /** A controller's detail text has room for 39 characters, a WiFi line for 79. */
  const DETAIL_MAX := 39
  const WIFI_MAX := 79

  function Cut(s: string, max: nat): (r: string)
    ensures |r| <= max
  {
    if |s| <= max then s else s[..max]
  }

  /** Everything outside the core. What the world answers is a finite script, one answer per call;
      when it is used up the session link reads as closed, which ends every wait. Every finite
      stretch of a real run is such a run. */
  class Hal {
    const mux: LinkMux
    var script: seq<Obs>
    var clock: nat
    var mode: Option<CanMode>
    var rate: Bitrate
    /** Error events and lost frames since the controller was last configured. */
    var errors: uint16
    var overflow: bool
    ghost var trace: seq<Event>
    /** What the record so far adds up to. */
    ghost var sum: Digest
    ghost var vouched: Option<Bitrate>
    ghost var safe: bool

    ghost function Repr(): set<object> { {this, mux, mux.usb, mux.tcp, mux.inBuf, mux.outBuf} }

    ghost predicate Recorded()
      reads this`trace, this`sum, this`vouched, this`safe
    {
      sum == Summary(trace) && (vouched.Some? ==> Vouched(trace, vouched.value)) && (safe <==> Safe(trace))
    }

    ghost predicate Valid()
      reads this, mux, mux.outBuf, mux.tcp
    {
      mux.Valid() && mux.checkedAt <= clock && Recorded()
      && mux.epoch == sum.session.moves && mux.onTcp == sum.session.onTcp
    }

    constructor (usb: ByteLink, tcp: ByteLink, script: seq<Obs>)
      requires usb != tcp
      ensures Valid() && fresh(mux) && fresh(mux.inBuf) && fresh(mux.outBuf) && mux.usb == usb && mux.tcp == tcp
      ensures trace == [] && mode == None && vouched == None && safe && sum == FRESH
    {
      mux := new LinkMux(usb, tcp);
      this.script, clock, mode, rate, errors, overflow := script, 0, None, K500, 0, false;
      trace, sum, vouched, safe := [], FRESH, None, true;
    }

    /** Writes one event into the record. */
    ghost method Note(e: Event)
      requires Recorded()
      modifies this`trace, this`sum, this`vouched, this`safe
      ensures Recorded() && trace == old(trace) + [e] && sum == Added(old(sum), old(trace), e)
      ensures !e.Received? ==> sum == Next(old(sum), e)
      ensures vouched == if old(vouched).Some? && Breaks(e, old(vouched).value) then None else old(vouched)
      ensures safe == (old(safe) && Promised(old(trace), e))
    {
      hide Promised, Safe, Vouched, Breaks, Summary, Next, Looked;
      SafeNext(trace, e);
      SummaryNext(trace, e);
      if vouched.Some? {
        if Breaks(e, vouched.value) { vouched := None; } else { VouchedNext(trace, e, vouched.value); }
      }
      safe := safe && Promised(trace, e);
      sum := Added(sum, trace, e);
      trace := trace + [e];
    }

    /** Puts on record what the core did by itself: a frame offered to the guard, a line started,
        a tier set, a text written. */
    ghost method Mark(e: Event)
      requires Valid() && (e.Judged? || e.Executed? || e.TierChanged? || e.Wrote? || e.Prompted?)
      modifies this`trace, this`sum, this`vouched, this`safe
      ensures Valid() && trace == old(trace) + [e] && sum == Next(old(sum), e) && vouched == old(vouched)
      ensures safe == (old(safe) && Promised(old(trace), e))
    {
      hide Recorded, Promised, LinkMux.Valid;
      Note(e);
    }

    /** A completed listen window clears its rate. */
    ghost method Vouch(before: seq<Event>, w: seq<Event>, r: Bitrate)
      requires Valid() && trace == before + w && IsWindow(w, r)
      modifies this`vouched
      ensures Valid() && vouched == Some(r)
    {
      hide IsWindow, Summary, Vouched, Safe, LinkMux.Valid;
      WindowVouches(before, w, r);
      vouched := Some(r);
    }

    method Observe() returns (o: Obs)
      modifies this`script, this`errors, this`overflow
      ensures |script| <= |old(script)| && (old(script) != [] ==> |script| < |old(script)|)
      ensures old(script) == [] ==> o == SILENCE
      ensures old(errors) <= errors && (old(overflow) ==> overflow)
    {
      if script == [] { return SILENCE; }
      o, script := script[0], script[1..];
      var sum: nat := errors + o.errors;
      errors, overflow := if sum < 0x1_0000 then sum else 0xFFFF, overflow || o.lost;
    }

    /** What every call on the controller side leaves alone. */
    twostate predicate Kept()
      reads this`mode, this`rate, this`vouched, this`safe, this`script
    {
      mode == old(mode) && rate == old(rate) && vouched == old(vouched) && safe == old(safe)
      && |script| <= |old(script)|
    }

    /** A byte of the session, NOTHING, or LINK_CLOSED. */
    method ReadByte() returns (c: int, ghost from: nat)
      requires Valid() && (sum.session.running || AllRun(sum.session))
      modifies Repr()
      ensures Valid() && Kept() && trace == old(trace) + [ByteRead(c, from)]
      ensures sum == Next(old(sum), ByteRead(c, from))
      ensures c == NOTHING || c == LINK_CLOSED || 0 <= c < 0x100
      ensures c >= 0 ==> from == sum.session.moves
      ensures c != LINK_CLOSED ==> |script| < |old(script)|
    {
      hide Recorded, LinkMux.Valid, LinkMux.Unread, LinkMux.Sent, LinkMux.Held, Conserved;
      c, from := LINK_CLOSED, mux.epoch;
      if script != [] {
        var o := Observe();
        c, from := mux.ReadByte();
      }
      RecordedSum(this);
      Note(ByteRead(c, from));
    }

    method NowMs() returns (now: uint32)
      requires Valid()
      modifies this
      ensures Valid() && Kept() && trace == old(trace) + [Clock(now)] && sum == Next(old(sum), Clock(now))
      ensures now == clock % WORD
    {
      hide Recorded, LinkMux.Valid;
      var o := Observe();
      clock := clock + o.tick;
      now := clock % WORD;
      Note(Clock(now));
    }

    /** Oldest received frame: for a wait that has just looked for a byte, or to be thrown away before
        a request. */
    method CanReceive() returns (frame: Option<CanFrame>)
      requires Valid() && sum.session.running && (Looked(trace) || (mode == Some(ListenOnly) && Draining(trace)))
      modifies this
      ensures var e := if frame.Some? then Received(frame.value, old(mode)) else NoFrame;
        Valid() && Kept() && trace == old(trace) + [e] && sum == Added(old(sum), old(trace), e)
      ensures frame.Some? ==> |script| < |old(script)|
    {
      hide Recorded, LinkMux.Valid;
      var o := Observe();
      frame := o.frame;
      RecordedSum(this);
      ReceivingIsPromised(trace, mode);
      Note(if frame.Some? then Received(frame.value, mode) else NoFrame);
    }

    /** Every configuration starts with no error counted and no frame lost. */
    method CanOpen(r: Bitrate, m: CanMode, acc: Acceptance) returns (ok: bool)
      requires Valid()
      modifies this
      ensures Valid() && trace == old(trace) + [Opened(r, m, acc, ok)] && sum == Next(old(sum), Opened(r, m, acc, ok))
      ensures mode == (if ok then Some(m) else None) && rate == r && errors == 0 && !overflow
      ensures vouched == if ok && old(vouched) == Some(r) then old(vouched) else None
      ensures safe == old(safe) && |script| <= |old(script)|
    {
      hide Recorded, LinkMux.Valid;
      var o := Observe();
      ok := o.ok;
      mode, rate, errors, overflow := if ok then Some(m) else None, r, 0, false;
      Note(Opened(r, m, acc, ok));
    }

    method CanClose()
      requires Valid()
      modifies this
      ensures Valid() && trace == old(trace) + [Closed] && sum == Next(old(sum), Closed)
      ensures mode == None && vouched == None && safe == old(safe) && |script| <= |old(script)|
    {
      hide Recorded, LinkMux.Valid;
      mode := None;
      Note(Closed);
    }

    /** An empty cleared frame is never sent. */
    method CanSend(f: ClearedFrame, ghost purpose: Purpose) returns (ok: bool)
      requires Valid()
      modifies this
      ensures var e := if f.Refused? then Withheld
                       else SendTried(f.frame, purpose, old(mode), old(rate), ok, old(sum.session.onTcp));
        Valid() && trace == old(trace) + [e] && sum == Next(old(sum), e)
        && safe == (old(safe) && Promised(old(trace), e))
      ensures mode == old(mode) && rate == old(rate) && |script| <= |old(script)|
      ensures vouched == (if ok then old(vouched) else None) && (f.Refused? ==> !ok)
    {
      hide Recorded, Promised, LinkMux.Valid;
      if f.Refused? {
        Note(Withheld);
        return false;
      }
      var o := Observe();
      ok := o.ok;
      Note(SendTried(f.frame, purpose, mode, rate, ok, mux.onTcp));
    }

    /** What was counted since the controller was configured. */
    method CanHealthNow() returns (h: CanHealth)
      requires Valid()
      modifies this
      ensures Valid() && Kept() && trace == old(trace) + [Health(h)] && sum == Next(old(sum), Health(h))
      ensures h.errorEvents == errors >= old(errors) && h.rxOverflow == overflow && (old(overflow) ==> overflow)
    {
      hide Recorded, LinkMux.Valid;
      var o := Observe();
      h := CanHealth(o.tec, o.rec, errors, overflow);
      Note(Health(h));
    }

    /** Serial output. It may block, so the design never calls it while an answer is awaited. */
    method Write(text: string)
      requires Valid() && Mute(mode)
      modifies Repr()
      ensures Valid() && Kept() && trace == old(trace) + [Wrote(text, mode)]
      ensures sum == Next(old(sum), Wrote(text, mode))
    {
      hide Valid, Recorded, Promised;
      WritingIsPromised(trace, text, mode);
      Put(text);
      Mark(Wrote(text, mode));
    }

    /** The prompt, which ends a line. */
    method Prompt()
      requires Valid() && Mute(mode) && (sum.session.running || sum.session.crs == 0)
      modifies Repr()
      ensures Valid() && Kept() && trace == old(trace) + [Prompted(mode)] && sum == Next(old(sum), Prompted(mode))
    {
      hide Valid, Recorded, Promised, Summary;
      SumIsSummary(this);
      PromptIsPromised(trace, mode);
      Put(">");
      Mark(Prompted(mode));
    }

    method Put(text: string)
      requires Valid()
      modifies this`script, this`clock, this`errors, this`overflow, Repr() - {this}
      ensures Valid() && Kept() && trace == old(trace) && sum == old(sum)
    {
      hide Recorded, LinkMux.Unread, LinkMux.Sent, LinkMux.Held, LinkMux.InTime, LinkMux.Valid, Conserved;
      var o := Observe();
      clock := clock + o.tick;
      mux.Write(text, clock % WORD, clock);
    }

    /** Sends output the link holds back. */
    method FlushOutput()
      requires Valid()
      modifies Repr()
      ensures Valid() && Kept() && trace == old(trace) + [Flushed] && sum == old(sum)
    {
      hide Recorded, LinkMux.Unread, LinkMux.Sent, LinkMux.Held, LinkMux.InTime, LinkMux.Valid, Conserved, Promised, Next;
      mux.FlushHeld();
      FlushingIsPromised(trace, sum);
      Note(Flushed);
    }

    /** Between lines: the session may move to another link, and then that is on record. */
    method PollLinks() returns (ghost moved: Option<bool>)
      requires Valid() && !sum.session.running && AllRun(sum.session)
      modifies Repr()
      ensures Valid() && Kept()
      ensures moved == if old(mux.MustMove()) then Some(old(mux.tcp.Calling())) else None
      ensures match moved
        case None => trace == old(trace) && sum == old(sum)
        case Some(toTcp) => trace == old(trace) + [Moved(toTcp)] && sum == Next(old(sum), Moved(toTcp))
    {
      hide Recorded, LinkMux.Unread, LinkMux.Sent, LinkMux.Held, LinkMux.InTime, LinkMux.Valid, Conserved, Promised;
      moved := None;
      RecordedSum(this);
      MovingIsPromised(trace);
      var o := Observe();
      clock := clock + o.tick;
      ghost var epoch := mux.epoch;
      mux.Poll(clock % WORD, clock);
      if mux.epoch != epoch {
        moved := Some(mux.onTcp);
        Note(Moved(mux.onTcp));
      }
    }

    /** Resets the controller to see whether it is there. */
    method CanProbe() returns (present: bool, detail: string)
      requires Valid()
      modifies this
      ensures Valid() && trace == old(trace) + [Probed(present, detail)]
      ensures sum == Next(old(sum), Probed(present, detail)) && |detail| <= DETAIL_MAX
      ensures mode == None && vouched == None && safe == old(safe) && |script| <= |old(script)|
    {
      hide Recorded, LinkMux.Valid;
      var o := Observe();
      present, mode := o.ok, None;
      detail := Cut(o.text, DETAIL_MAX);
      Note(Probed(present, detail));
    }

    /** One line of the WiFi state, None past the last. */
    method WifiStatus() returns (line: Option<string>)
      requires Valid()
      modifies this
      ensures Valid() && Kept() && trace == old(trace) + [WifiLine(line)] && sum == Next(old(sum), WifiLine(line))
      ensures line.Some? ==> |line.value| <= WIFI_MAX && |script| < |old(script)|
    {
      hide Recorded, LinkMux.Valid;
      var o := Observe();
      line := if o.ok then Some(Cut(o.text, WIFI_MAX)) else None;
      Note(WifiLine(line));
    }
  }

  lemma ReceivingIsPromised(tr: seq<Event>, mode: Option<CanMode>)
    requires Summary(tr).session.running && (Looked(tr) || (mode == Some(ListenOnly) && Draining(tr)))
    ensures forall f :: Promised(tr, Received(f, mode))
  {
    hide Summary, Looked, Draining;
  }

  lemma PromptIsPromised(tr: seq<Event>, mode: Option<CanMode>)
    requires Mute(mode) && (Summary(tr).session.running || Summary(tr).session.crs == 0)
    ensures Promised(tr, Prompted(mode))
  {
    hide Summary;
  }

  lemma FlushingIsPromised(tr: seq<Event>, d: Digest)
    ensures Promised(tr, Flushed) && Next(d, Flushed) == d
  {
    hide Summary;
  }

  lemma WritingIsPromised(tr: seq<Event>, text: string, mode: Option<CanMode>)
    requires Mute(mode)
    ensures Promised(tr, Wrote(text, mode))
  {
    hide Summary;
  }

  lemma MovingIsPromised(tr: seq<Event>)
    requires !Summary(tr).session.running && AllRun(Summary(tr).session)
    ensures forall toTcp :: Promised(tr, Moved(toTcp))
  {
    hide Summary;
  }

  lemma RecordedSum(hal: Hal)
    requires hal.Recorded()
    ensures hal.sum == Summary(hal.trace)
  {
  }

  lemma SumIsSummary(hal: Hal)
    requires hal.Valid()
    ensures hal.sum == Summary(hal.trace)
  {
  }
}
