/** Receive order: the two MCP2515 receive buffers (or the simulator's ring), read through
    `RolloverOrder`, against one bounded FIFO (lib/elm/src/rx_order.h and the receive store of
    `SimBus` in lib/vecu/src/vecu.cpp). Frames may arrive between any two controller accesses. */
module RxOrder {
  import opened CanTypes

  type Frames = seq<CanFrame>

  /** What the controller holds. `Pair` is RXB0/RXB1 with rollover; `Ring` is the simulator's
      longer store, oldest frame first. */
  datatype Store =
    | Pair(b0: Option<CanFrame>, b1: Option<CanFrame>, overflow: bool)
    | Ring(queue: Frames, capacity: nat, overflow: bool)

  function Stored(s: Store, f: CanFrame): Store {
    match s
    case Pair(b0, b1, overflow) =>
      if b0.None? then Pair(Some(f), b1, overflow)
      else if b1.None? then Pair(b0, Some(f), overflow)
      else Pair(b0, b1, true)
    case Ring(q, capacity, overflow) =>
      if |q| < capacity then Ring(q + [f], capacity, overflow) else Ring(q, capacity, true)
  }

  function StoredAll(s: Store, fs: Frames): Store
    decreases |fs|
  {
    if fs == [] then s else StoredAll(Stored(s, fs[0]), fs[1..])
  }

  function Rxb0Full(s: Store): bool { if s.Pair? then s.b0.Some? else s.queue != [] }

  function Rxb1Full(s: Store): bool { s.Pair? && s.b1.Some? }

  function Free(s: Store, n: nat): Store {
    match s
    case Pair(b0, b1, _) => if n == 0 then s.(b0 := None) else if n == 1 then s.(b1 := None) else s
    case Ring(q, _, _) => if n == 0 && q != [] then s.(queue := q[1..]) else s
  }

  function Held(s: Store, n: nat): Option<CanFrame> {
    match s
    case Pair(b0, b1, _) => if n == 0 then b0 else if n == 1 then b1 else None
    case Ring(q, _, _) => if n == 0 && q != [] then Some(q[0]) else None
  }

  datatype Reading = Reading(store: Store, prefer: bool, out: Option<CanFrame>)

  /** One `RolloverOrder::read`: `before` arrives between the first status and the buffer read,
      `window` between freeing the buffer and the second status (or the return). */
  function ReadOnce(s: Store, prefer: bool, before: Frames, window: Frames): Reading {
    var mid := StoredAll(s, before);
    if prefer && Rxb1Full(s) then
      Reading(StoredAll(Free(mid, 1), window), false, Held(mid, 1))
    else if Rxb0Full(s) then
      var after := StoredAll(Free(mid, 0), window);
      Reading(after, Rxb1Full(after), Held(mid, 0))
    else if Rxb1Full(s) then
      Reading(StoredAll(Free(mid, 1), window), false, Held(mid, 1))
    else
      Reading(StoredAll(mid, window), prefer, None)
  }

  // ---------- The reference: one bounded FIFO ----------

  /** A queue that drops the newest frame only when it is full, and then says so. */
  datatype Fifo = Fifo(queue: Frames, capacity: nat, overflow: bool)

  function Push(q: Fifo, f: CanFrame): Fifo {
    if |q.queue| < q.capacity then q.(queue := q.queue + [f]) else q.(overflow := true)
  }

  function PushAll(q: Fifo, fs: Frames): Fifo
    decreases |fs|
  {
    if fs == [] then q else PushAll(Push(q, fs[0]), fs[1..])
  }

  datatype FifoReading = FifoReading(fifo: Fifo, out: Option<CanFrame>)

  function Pop(q: Fifo, before: Frames, window: Frames): FifoReading {
    var mid := PushAll(q, before);
    if q.queue == [] || mid.queue == [] then FifoReading(PushAll(mid, window), None)
    else FifoReading(PushAll(mid.(queue := mid.queue[1..]), window), Some(mid.queue[0]))
  }

  function Opt(o: Option<CanFrame>): Frames { if o.Some? then [o.value] else [] }

  /** The FIFO that a store stands for, oldest frame first. */
  function View(s: Store, prefer: bool): Fifo {
    match s
    case Pair(b0, b1, overflow) =>
      Fifo(if prefer then Opt(b1) + Opt(b0) else Opt(b0) + Opt(b1), 2, overflow)
    case Ring(q, capacity, overflow) => Fifo(q, capacity, overflow)
  }

  /** `prefer` holds exactly when RXB1 is full and holds the oldest frame. */
  predicate Ordered(s: Store, prefer: bool) {
    match s
    case Pair(b0, b1, _) => (prefer ==> b1.Some?) && (!prefer && b1.Some? ==> b0.Some?)
    case Ring(q, capacity, _) => !prefer && |q| <= capacity && capacity > 2
  }

  /** At most one frame lands while RXB0 is being exchanged for the second status, unless RXB1
      was already full when RXB0 was freed. */
  predicate WindowSafe(s: Store, prefer: bool, before: Frames, window: Frames) {
    s.Ring? || (prefer && Rxb1Full(s)) || !Rxb0Full(s)
    || |window| <= 1 || Rxb1Full(StoredAll(s, before))
  }

  lemma ArrivalQueuesUp(s: Store, prefer: bool, f: CanFrame)
    requires Ordered(s, prefer)
    ensures Ordered(Stored(s, f), prefer)
    ensures View(Stored(s, f), prefer) == Push(View(s, prefer), f)
  {
    match s
    case Ring(_, _, _) =>
    case Pair(b0, b1, _) =>
      assert View(Stored(s, f), prefer).queue == Push(View(s, prefer), f).queue by {
        assert b0.None? || b1.None? ==> |View(s, prefer).queue| < 2;
        assert b0.Some? && b1.Some? ==> |View(s, prefer).queue| == 2;
      }
  }

  lemma {:induction false} ArrivalsQueueUp(s: Store, prefer: bool, fs: Frames)
    requires Ordered(s, prefer)
    ensures Ordered(StoredAll(s, fs), prefer)
    ensures View(StoredAll(s, fs), prefer) == PushAll(View(s, prefer), fs)
    ensures s.Pair? <==> StoredAll(s, fs).Pair?
    decreases |fs|
  {
    hide View, Push, Ordered;
    if fs != [] { ArrivalQueuesUp(s, prefer, fs[0]); ArrivalsQueueUp(Stored(s, fs[0]), prefer, fs[1..]); }
  }

  /** A full buffer stays what it is while more frames arrive. */
  lemma {:induction false} ArrivalsKeep(s: Store, fs: Frames)
    requires s.Pair?
    ensures var t := StoredAll(s, fs);
      t.Pair? && (s.b0.Some? ==> t.b0 == s.b0) && (s.b1.Some? ==> t.b1 == s.b1)
    decreases |fs|
  {
    if fs != [] { ArrivalsKeep(Stored(s, fs[0]), fs[1..]); }
  }

  /** Main result: under `WindowSafe` one read, with frames arriving at every point of it, is one
      read of the FIFO, and the order is kept for the next one. */
  lemma ReadRefinesFifo(s: Store, prefer: bool, before: Frames, window: Frames)
    requires Ordered(s, prefer) && WindowSafe(s, prefer, before, window)
    ensures var r := ReadOnce(s, prefer, before, window);
      Ordered(r.store, r.prefer) && (r.store.Pair? <==> s.Pair?)
      && FifoReading(View(r.store, r.prefer), r.out) == Pop(View(s, prefer), before, window)
  {
    hide StoredAll, PushAll;
    var mid := StoredAll(s, before);
    ArrivalsQueueUp(s, prefer, before);
    if s.Pair? { ArrivalsKeep(s, before); }
    if prefer && Rxb1Full(s) {
      ArrivalsQueueUp(Free(mid, 1), false, window);
      assert View(mid, prefer).queue[1..] == View(Free(mid, 1), false).queue;
    } else if Rxb0Full(s) {
      if s.Ring? {
        RingStays(s, before);
        ArrivalsQueueUp(Free(mid, 0), false, window);
        RingStays(Free(mid, 0), window);
      } else if mid.b1.Some? {
        ArrivalsQueueUp(Free(mid, 0), true, window);
        assert View(mid, prefer).queue[1..] == View(Free(mid, 0), true).queue;
        ArrivalsKeep(Free(mid, 0), window);
      } else {
        AtMostOneArrival(Free(mid, 0), window);
        assert View(mid, prefer).queue[1..] == View(Free(mid, 0), false).queue;
        ArrivalsQueueUp(Free(mid, 0), false, window);
      }
    } else {
      ArrivalsQueueUp(mid, prefer, window);
    }
  }

  lemma AtMostOneArrival(s: Store, fs: Frames)
    requires s.Pair? && s.b0.None? && |fs| <= 1
    ensures StoredAll(s, fs).Pair? && StoredAll(s, fs).b1 == s.b1
  {
  }

  lemma {:induction false} RingStays(s: Store, fs: Frames)
    requires s.Ring?
    ensures var t := StoredAll(s, fs); t.Ring? && t.capacity == s.capacity && s.queue <= t.queue
    decreases |fs|
  {
    if fs != [] { RingStays(Stored(s, fs[0]), fs[1..]); }
  }

  /** The assumption is tight: with two or more different frames in the window of a store that
      held only RXB0, the next reads return the second before the first. */
  lemma ReadKeepsOrderExactlyWhen(s: Store, prefer: bool, before: Frames, window: Frames)
    requires Ordered(s, prefer)
    ensures var r := ReadOnce(s, prefer, before, window);
      View(r.store, r.prefer) == Pop(View(s, prefer), before, window).fifo <==>
      (WindowSafe(s, prefer, before, window) || window[0] == window[1])
  {
    if WindowSafe(s, prefer, before, window) {
      ReadRefinesFifo(s, prefer, before, window);
    } else {
      hide StoredAll, PushAll;
      var mid := StoredAll(s, before);
      ArrivalsQueueUp(s, prefer, before);
      ArrivalsKeep(s, before);
      var freed := Free(mid, 0);
      assert freed == Pair(None, None, mid.overflow);
      ArrivalsQueueUp(freed, false, window);
      TwoArrivals(freed, window);
      var after := StoredAll(freed, window);
      assert View(mid, prefer).queue[1..] == View(freed, false).queue;
      assert View(after, false).queue == [window[0], window[1]];
      assert View(after, true).queue == [window[1], window[0]];
    }
  }

  lemma TwoArrivals(s: Store, fs: Frames)
    requires s.Pair? && s.b0.None? && s.b1.None? && |fs| >= 2
    ensures var t := StoredAll(s, fs); t.Pair? && t.b0 == Some(fs[0]) && t.b1 == Some(fs[1])
  {
    assert StoredAll(s, fs) == StoredAll(Stored(Stored(s, fs[0]), fs[1]), fs[1..][1..]);
    ArrivalsKeep(Stored(Stored(s, fs[0]), fs[1]), fs[1..][1..]);
  }

  // ---------- Whole runs ----------

  datatype Op = Arrival(frame: CanFrame) | Fetch(before: Frames, window: Frames)

  /** The frames a sequence of operations returns from the controller, and from the FIFO. */
  function Fetched(s: Store, prefer: bool, ops: seq<Op>): Frames
    decreases |ops|
  {
    if ops == [] then []
    else match ops[0]
      case Arrival(f) => Fetched(Stored(s, f), prefer, ops[1..])
      case Fetch(before, window) =>
        var r := ReadOnce(s, prefer, before, window);
        Opt(r.out) + Fetched(r.store, r.prefer, ops[1..])
  }

  function FetchedFifo(q: Fifo, ops: seq<Op>): Frames
    decreases |ops|
  {
    if ops == [] then []
    else match ops[0]
      case Arrival(f) => FetchedFifo(Push(q, f), ops[1..])
      case Fetch(before, window) =>
        var r := Pop(q, before, window);
        Opt(r.out) + FetchedFifo(r.fifo, ops[1..])
  }

  /** Every read of the run is `WindowSafe` where it happens. */
  predicate RunSafe(s: Store, prefer: bool, ops: seq<Op>)
    decreases |ops|
  {
    ops == []
    || match ops[0]
       case Arrival(f) => RunSafe(Stored(s, f), prefer, ops[1..])
       case Fetch(before, window) =>
         WindowSafe(s, prefer, before, window)
         && var r := ReadOnce(s, prefer, before, window); RunSafe(r.store, r.prefer, ops[1..])
  }

  /** So it is, for instance, when at most one frame lands in each exchange window. */
  lemma {:induction false} OneInWindow(s: Store, prefer: bool, ops: seq<Op>)
    requires forall i :: 0 <= i < |ops| && ops[i].Fetch? ==> |ops[i].window| <= 1
    ensures RunSafe(s, prefer, ops)
    decreases |ops|
  {
    hide ReadOnce, Stored;
    if ops != [] {
      assert forall i :: 0 <= i < |ops[1..]| ==> ops[1..][i] == ops[i + 1];
      match ops[0]
      case Arrival(f) => OneInWindow(Stored(s, f), prefer, ops[1..]);
      case Fetch(before, window) =>
        var r := ReadOnce(s, prefer, before, window);
        OneInWindow(r.store, r.prefer, ops[1..]);
    }
  }

  /** Main result: in every run whose reads are `WindowSafe`, the controller read through
      `RolloverOrder` returns what one bounded FIFO returns. */
  lemma {:induction false} RunRefinesFifo(s: Store, prefer: bool, ops: seq<Op>)
    requires Ordered(s, prefer) && RunSafe(s, prefer, ops)
    ensures Fetched(s, prefer, ops) == FetchedFifo(View(s, prefer), ops)
    decreases |ops|
  {
    if ops != [] {
      var rest := ops[1..];
      match ops[0]
      case Arrival(f) =>
        ArrivalsQueueUp(s, prefer, [f]);
        RunRefinesFifo(Stored(s, f), prefer, rest);
      case Fetch(before, window) =>
        ReadRefinesFifo(s, prefer, before, window);
        var r := ReadOnce(s, prefer, before, window);
        RunRefinesFifo(r.store, r.prefer, rest);
    }
  }

  // ---------- The objects ----------

  const MAX_SLOTS := 32

  /** Everything the controller needs to know to receive. */
  datatype Setting = Shut | Tuned(rate: Bitrate, mode: CanMode, acc: Acceptance)

  predicate Reaches(cfg: Setting, carRate: Bitrate, f: CanFrame) {
    cfg.Tuned? && cfg.mode != Loopback && cfg.rate == carRate && cfg.acc.Accepts(f.id)
  }

  /** Of the frames the car transmits, those that reach the store. */
  function Reaching(cfg: Setting, carRate: Bitrate, fs: Frames): Frames {
    if fs == [] then []
    else
      Reaching(cfg, carRate, fs[..|fs| - 1])
        + (if Reaches(cfg, carRate, fs[|fs| - 1]) then [fs[|fs| - 1]] else [])
  }

  function Emptied(s: Store): Store {
    match s
    case Pair(_, _, overflow) => Pair(None, None, overflow)
    case Ring(_, capacity, overflow) => Ring([], capacity, overflow)
  }

  function Restarted(s: Store): Store {
    match s
    case Pair(b0, b1, _) => Pair(b0, b1, false)
    case Ring(q, capacity, _) => Ring(q, capacity, false)
  }

  lemma {:induction false} StoredAllConcat(s: Store, fs: Frames, f: CanFrame)
    ensures StoredAll(s, fs + [f]) == Stored(StoredAll(s, fs), f)
    decreases |fs|
  {
    if fs == [] {
      assert fs + [f] == [f] && [f][1..] == [];
    } else {
      assert (fs + [f])[0] == fs[0] && (fs + [f])[1..] == fs[1..] + [f];
      StoredAllConcat(Stored(s, fs[0]), fs[1..], f);
    }
  }

  lemma NothingArrived(s: Store, cfg: Setting, carRate: Bitrate)
    ensures StoredAll(s, Reaching(cfg, carRate, [])) == s
  {
  }

  lemma ArrivedNext(s: Store, cfg: Setting, carRate: Bitrate, fs: Frames, f: CanFrame)
    ensures var before := StoredAll(s, Reaching(cfg, carRate, fs));
      StoredAll(s, Reaching(cfg, carRate, fs + [f])) == if Reaches(cfg, carRate, f) then Stored(before, f) else before
  {
    hide Stored, Reaches;
    assert (fs + [f])[..|fs|] == fs;
    var arrived := Reaching(cfg, carRate, fs);
    assert arrived + [] == arrived;
    StoredAllConcat(s, arrived, f);
  }

  datatype Counters = Counters(tec: byte, rec: byte, errorEvents: uint16)

  /** A frame that the car sends at another rate than ours is an error event, and counts as a receive
      error; both counters stop at their largest value. */
  function Erred(c: Counters, cfg: Setting, carRate: Bitrate): Counters {
    if cfg.Tuned? && cfg.mode != Loopback && cfg.rate != carRate then
      c.(rec := if c.rec < 255 then c.rec + 1 else c.rec,
         errorEvents := if c.errorEvents < 0xFFFF then c.errorEvents + 1 else c.errorEvents)
    else c
  }

  function ErredAll(c: Counters, cfg: Setting, carRate: Bitrate, frames: nat): Counters {
    if frames == 0 then c else Erred(ErredAll(c, cfg, carRate, frames - 1), cfg, carRate)
  }

  /** A frame of ours that nobody can acknowledge: eight transmit errors, and an error event. */
  function Unacknowledged(c: Counters): Counters {
    c.(tec := if c.tec > 247 then 255 else c.tec + 8,
       errorEvents := if c.errorEvents < 0xFFFF then c.errorEvents + 1 else c.errorEvents)
  }

  /** The simulated controller: its configuration, and the receive store, two flagged buffers or a
      ring of more slots. */
  class SimBus {
    const carRate: Bitrate
    const rxSlots: nat
    const slots: array<CanFrame>
    var rxb0Full: bool
    var rxb1Full: bool
    var head: nat
    var used: nat
    var rxOverflow: bool
    var open: bool
    var rate: Bitrate
    var mode: CanMode
    var acc: Acceptance
    var tec: byte
    var rec: byte
    var errorEvents: uint16

    function Configured(): Setting
      reads this`open, this`rate, this`mode, this`acc
    {
      if open then Tuned(rate, mode, acc) else Shut
    }

    function Health(): Counters
      reads this`tec, this`rec, this`errorEvents
    {
      Counters(tec, rec, errorEvents)
    }

    ghost predicate Valid()
      reads this
    {
      slots.Length == MAX_SLOTS && 2 <= rxSlots <= MAX_SLOTS && head < rxSlots && used <= rxSlots
    }

    ghost function State(): Store
      reads this, slots
      requires Valid()
    {
      if rxSlots == 2 then
        Pair(if rxb0Full then Some(slots[0]) else None, if rxb1Full then Some(slots[1]) else None, rxOverflow)
      else Ring(RingView(slots[..], head, used, rxSlots), rxSlots, rxOverflow)
    }

    /** The slot count is clamped into 2..32. */
    constructor (requested: nat, carRate: Bitrate)
      ensures Valid() && fresh(slots) && Configured() == Shut && this.carRate == carRate
      ensures rxSlots == if requested < 2 then 2 else if requested > MAX_SLOTS then MAX_SLOTS else requested
      ensures Ordered(State(), false) && View(State(), false) == Fifo([], rxSlots, false)
      ensures Health() == Counters(0, 0, 0)
    {
      rxSlots := if requested < 2 then 2 else if requested > MAX_SLOTS then MAX_SLOTS else requested;
      slots := new CanFrame[MAX_SLOTS];
      rxb0Full, rxb1Full, head, used, rxOverflow := false, false, 0, 0, false;
      open, rate, mode, acc, tec, rec, errorEvents := false, K500, ListenOnly, ACCEPT_ALL, 0, 0, 0;
      this.carRate := carRate;
    }

    method Arrive(f: CanFrame)
      requires Valid()
      modifies this`rxb0Full, this`rxb1Full, this`used, this`rxOverflow, slots
      ensures Valid() && State() == Stored(old(State()), f)
    {
      hide RingView, Wrapped;
      if rxSlots == 2 {
        if !rxb0Full {
          slots[0] := f;
          rxb0Full := true;
        } else if !rxb1Full {
          slots[1] := f;
          rxb1Full := true;
        } else {
          rxOverflow := true;
        }
        return;
      }
      if used >= rxSlots {
        rxOverflow := true;
        return;
      }
      RingPush(slots[..], head, used, rxSlots, f);
      slots[Wrapped(head + used, rxSlots)] := f;
      used := used + 1;
    }

    /** What the car transmits until now: stored, or counted as errors at the wrong rate. */
    method Advance(fs: Frames)
      requires Valid()
      modifies this`rxb0Full, this`rxb1Full, this`used, this`rxOverflow, this`rec, this`errorEvents, slots
      ensures Valid() && State() == StoredAll(old(State()), Reaching(Configured(), carRate, fs))
      ensures Health() == ErredAll(old(Health()), Configured(), carRate, |fs|)
    {
      hide Reaching, StoredAll, State, Erred;
      ghost var s0 := State();
      NothingArrived(s0, Configured(), carRate);
      for i := 0 to |fs|
        invariant Valid() && State() == StoredAll(s0, Reaching(Configured(), carRate, fs[..i]))
        invariant Health() == ErredAll(old(Health()), Configured(), carRate, i)
      {
        ArrivedNext(s0, Configured(), carRate, fs[..i], fs[i]);
        assert fs[..i] + [fs[i]] == fs[..i + 1];
        OnWire(fs[i]);
      }
      assert fs[..|fs|] == fs;
    }

    /** One frame on the wire. */
    method OnWire(f: CanFrame)
      requires Valid()
      modifies this`rxb0Full, this`rxb1Full, this`used, this`rxOverflow, this`rec, this`errorEvents, slots
      ensures Valid() && State() == if Reaches(Configured(), carRate, f) then Stored(old(State()), f) else old(State())
      ensures Health() == Erred(old(Health()), Configured(), carRate)
    {
      hide Stored, RingView, Acceptance.Accepts;
      if !open || mode == Loopback { return; }
      if rate != carRate {
        if errorEvents < 0xFFFF { errorEvents := errorEvents + 1; }
        if rec < 255 { rec := rec + 1; }
        return;
      }
      if acc.Accepts(f.id) { Arrive(f); }
    }

    method ClearSlots()
      requires Valid()
      modifies this`rxb0Full, this`rxb1Full, this`head, this`used
      ensures Valid() && State() == Emptied(old(State()))
    {
      rxb0Full, rxb1Full, head, used := false, false, 0, 0;
    }

    /** A change of rate or filter, or opening a closed controller, resets it; a change of mode alone
        keeps what was received. Error events and the overflow flag restart either way. */
    method Open(r: Bitrate, m: CanMode, a: Acceptance, fs: Frames) returns (reset: bool)
      requires Valid()
      modifies this, slots
      ensures Valid() && Configured() == Tuned(r, m, a)
      ensures reset <==> old(Configured()) == Shut || old(rate) != r || !old(acc).SameAs(a)
      ensures var arrived := StoredAll(old(State()), Reaching(old(Configured()), carRate, fs));
        State() == Restarted(if reset then Emptied(arrived) else arrived)
      ensures var counted := ErredAll(old(Health()), old(Configured()), carRate, |fs|);
        Health() == if reset then Counters(0, 0, 0) else counted.(errorEvents := 0)
    {
      hide StoredAll, Reaching, ErredAll, State, Emptied, Restarted;
      Advance(fs);
      reset := Retune(r, m, a);
    }

    method Retune(r: Bitrate, m: CanMode, a: Acceptance) returns (reset: bool)
      requires Valid()
      modifies this
      ensures Valid() && Configured() == Tuned(r, m, a)
      ensures reset <==> old(Configured()) == Shut || old(rate) != r || !old(acc).SameAs(a)
      ensures State() == Restarted(if reset then Emptied(old(State())) else old(State()))
      ensures Health() == if reset then Counters(0, 0, 0) else old(Health()).(errorEvents := 0)
    {
      hide RingView;
      reset := !open || rate != r || !acc.SameAs(a);
      if reset { ClearSlots(); }
      open, rate, mode, acc := true, r, m, a;
      if reset { tec, rec := 0, 0; }
      errorEvents, rxOverflow := 0, false;
    }

    method Close(fs: Frames)
      requires Valid()
      modifies this, slots
      ensures Valid() && Configured() == Shut
      ensures State() == Emptied(StoredAll(old(State()), Reaching(old(Configured()), carRate, fs)))
      ensures Health() == ErredAll(old(Health()), old(Configured()), carRate, |fs|)
    {
      hide StoredAll, Reaching, RingView, ErredAll;
      Advance(fs);
      open := false;
      ClearSlots();
    }

    /** A frame of ours: refused while closed or listening, looped back, refused by a bus at another
        rate, or on its way to the car. */
    method Send(f: CanFrame, fs: Frames) returns (sent: bool, toCar: bool)
      requires Valid()
      modifies this, slots
      ensures Valid() && Configured() == old(Configured())
      ensures sent <==> old(Configured()).Tuned? && mode != ListenOnly && (mode == Loopback || rate == carRate)
      ensures toCar <==> sent && mode == Normal
      ensures var arrived := StoredAll(old(State()), Reaching(old(Configured()), carRate, fs));
        State() == if sent && mode == Loopback && acc.Accepts(f.id) then Stored(arrived, f) else arrived
      ensures var counted := ErredAll(old(Health()), old(Configured()), carRate, |fs|);
        Health() == if !sent && open && mode == Normal then Unacknowledged(counted) else counted
    {
      hide StoredAll, Stored, Reaching, RingView, Acceptance.Accepts, ErredAll;
      Advance(fs);
      if !open || mode == ListenOnly { return false, false; }
      if mode == Loopback {
        if acc.Accepts(f.id) { Arrive(f); }
        return true, false;
      }
      if rate != carRate {
        if errorEvents < 0xFFFF { errorEvents := errorEvents + 1; }
        tec := if tec > 247 then 255 else tec + 8;
        return false, false;
      }
      return true, true;
    }

    /** What the car has sent until now comes first; then the two full flags, or whether the ring holds
        anything. */
    method RxStatus(fs: Frames) returns (rxb0: bool, rxb1: bool)
      requires Valid()
      modifies this`rxb0Full, this`rxb1Full, this`used, this`rxOverflow, this`rec, this`errorEvents, slots
      ensures Valid() && State() == StoredAll(old(State()), Reaching(Configured(), carRate, fs))
      ensures Health() == ErredAll(old(Health()), Configured(), carRate, |fs|)
      ensures rxb0 == Rxb0Full(State()) && rxb1 == Rxb1Full(State())
    {
      hide StoredAll, Reaching, ErredAll;
      Advance(fs);
      if rxSlots == 2 { return rxb0Full, rxb1Full; }
      return used > 0, false;
    }

    method ReadRxb(n: nat) returns (out: Option<CanFrame>)
      requires Valid()
      modifies this`rxb0Full, this`rxb1Full, this`head, this`used
      ensures Valid() && State() == Free(old(State()), n) && out == Held(old(State()), n)
    {
      hide RingView, Wrapped;
      if rxSlots == 2 {
        if n > 1 || !(if n == 0 then rxb0Full else rxb1Full) { return None; }
        out := Some(slots[n]);
        if n == 0 { rxb0Full := false; } else { rxb1Full := false; }
        return;
      }
      if n != 0 || used == 0 { return None; }
      RingPop(slots[..], head, used, rxSlots);
      out := Some(slots[head]);
      head := Wrapped(head + 1, rxSlots);
      used := used - 1;
    }
  }

  /** `i % size` on the range the ring uses it for. */
  function Wrapped(i: nat, size: nat): (r: nat)
    requires size > 0 && i < 2 * size
    ensures r == if i < size then i else i - size
  {
    i % size
  }

  /** The frames in a ring of `size` slots, oldest first. */
  function RingView(slots: Frames, head: nat, used: nat, size: nat): (r: Frames)
    requires head < size <= |slots| && used <= size
    ensures |r| == used
  {
    if head + used <= size then slots[head..head + used]
    else slots[head..size] + slots[..head + used - size]
  }

  lemma RingPush(slots: Frames, head: nat, used: nat, size: nat, f: CanFrame)
    requires head < size <= |slots| && used < size
    ensures RingView(slots[Wrapped(head + used, size) := f], head, used + 1, size)
      == RingView(slots, head, used, size) + [f]
  {
  }

  lemma RingPop(slots: Frames, head: nat, used: nat, size: nat)
    requires head < size <= |slots| && 0 < used <= size
    ensures RingView(slots, head, used, size)
      == [slots[head]] + RingView(slots, Wrapped(head + 1, size), used - 1, size)
  {
    hide Wrapped;
    if head + 1 == size {
      assert RingView(slots, 0, used - 1, size) == slots[..used - 1];
    } else if head + used <= size {
      assert RingView(slots, head + 1, used - 1, size) == slots[head + 1..head + used];
    } else {
      assert RingView(slots, head + 1, used - 1, size) == slots[head + 1..size] + slots[..head + used - size];
    }
  }

  class RolloverOrder {
    var preferRxb1: bool

    constructor ()
      ensures !preferRxb1
    {
      preferRxb1 := false;
    }

    method Reset()
      modifies this
      ensures !preferRxb1
    {
      preferRxb1 := false;
    }

    /** `fs` is what the car has sent when the read begins; `before` and `window` are what it sends
        while the read is under way. */
    method Read(c: SimBus, fs: Frames, before: Frames, window: Frames) returns (out: Option<CanFrame>)
      requires c.Valid()
      modifies this, c`rxb0Full, c`rxb1Full, c`head, c`used, c`rxOverflow, c`rec, c`errorEvents, c.slots
      ensures c.Valid() && c.Configured() == old(c.Configured())
      ensures var cfg, rate := c.Configured(), c.carRate;
        Reading(c.State(), preferRxb1, out)
          == ReadOnce(StoredAll(old(c.State()), Reaching(cfg, rate, fs)), old(preferRxb1), Reaching(cfg, rate, before),
                      Reaching(cfg, rate, window))
    {
      hide StoredAll, Reaching, ErredAll, SimBus.State;
      var rxb0, rxb1 := c.RxStatus(fs);
      c.Advance(before);
      if preferRxb1 && rxb1 {
        preferRxb1 := false;
        out := c.ReadRxb(1);
        c.Advance(window);
      } else if rxb0 {
        out := c.ReadRxb(0);
        var _, second := c.RxStatus(window);
        preferRxb1 := second;
      } else if rxb1 {
        preferRxb1 := false;
        out := c.ReadRxb(1);
        c.Advance(window);
      } else {
        out := None;
        c.Advance(window);
      }
    }
  }

  lemma EmptyIsOrdered(s: Store, prefer: bool)
    requires Ordered(s, prefer)
    ensures Ordered(Emptied(s), false) && View(Emptied(s), false) == View(s, prefer).(queue := [])
    ensures Ordered(Restarted(s), prefer) && View(Restarted(s), prefer) == View(s, prefer).(overflow := false)
  {
  }

  /** The receiving side of the simulated controller as the core drives it (sim_can_hal.cpp): the
      store and the reader's preference always stand for one bounded FIFO, through every opening,
      closing and mode change. */
  class SimCanHal {
    const bus: SimBus
    const order: RolloverOrder
    ghost const objects: set<object>

    ghost predicate Valid()
      reads bus, bus.slots, order
    {
      objects == {bus, bus.slots, order} && bus.Valid() && Ordered(bus.State(), order.preferRxb1)
    }

    ghost function Received(): Fifo
      reads bus, bus.slots, order
      requires Valid()
    {
      View(bus.State(), order.preferRxb1)
    }

    constructor (rxSlots: nat, carRate: Bitrate)
      ensures Valid() && fresh(objects) && Received().queue == [] && bus.Configured() == Shut
    {
      var b := new SimBus(rxSlots, carRate);
      var o := new RolloverOrder();
      bus, order, objects := b, o, {b, b.slots, o};
    }

    /** `fs` is what the car transmitted since the last call. */
    method CanOpen(r: Bitrate, m: CanMode, a: Acceptance, fs: Frames)
      requires Valid()
      modifies objects
      ensures Valid() && bus.Configured() == Tuned(r, m, a)
      ensures var kept := old(bus.Configured()).Tuned? && old(bus.rate) == r && old(bus.acc).SameAs(a);
        Received() == (if kept then PushAll(old(Received()), Reaching(old(bus.Configured()), bus.carRate, fs))
                       else old(Received()).(queue := [])).(overflow := false)
    {
      hide View, Ordered, StoredAll, Reaching, PushAll, SimBus.State, Emptied, Restarted;
      ghost var in0 := Reaching(bus.Configured(), bus.carRate, fs);
      ghost var s0, p0 := bus.State(), order.preferRxb1;
      ArrivalsQueueUp(s0, p0, in0);
      var reset := bus.Open(r, m, a, fs);
      EmptyIsOrdered(StoredAll(s0, in0), p0);
      EmptyIsOrdered(Emptied(StoredAll(s0, in0)), false);
      SameCapacity(View(s0, p0), in0);
      if reset { order.Reset(); }
    }

    method CanClose(fs: Frames)
      requires Valid()
      modifies objects
      ensures Valid() && bus.Configured() == Shut && Received().queue == []
    {
      hide View, Ordered, StoredAll, Reaching, PushAll, SimBus.State, Emptied, Restarted;
      ghost var in0 := Reaching(bus.Configured(), bus.carRate, fs);
      ArrivalsQueueUp(bus.State(), order.preferRxb1, in0);
      EmptyIsOrdered(StoredAll(bus.State(), in0), order.preferRxb1);
      bus.Close(fs);
      order.Reset();
    }

    /** The frames of those that pass the filter at the bus's rate. */
    ghost function Passing(fs: Frames): Frames
      reads bus
    {
      Reaching(bus.Configured(), bus.carRate, fs)
    }

    /** One read: what the car has sent until then queues up first, and the oldest frame comes out;
        under `WindowSafe`, whatever is sent while the read is under way. */
    method CanReceive(fs: Frames, before: Frames, window: Frames) returns (out: Option<CanFrame>)
      requires Valid()
      requires WindowSafe(StoredAll(bus.State(), Passing(fs)), order.preferRxb1, Passing(before), Passing(window))
      modifies objects
      ensures Valid() && bus.Configured() == old(bus.Configured())
      ensures FifoReading(Received(), out)
        == Pop(PushAll(old(Received()), old(Passing(fs))), old(Passing(before)), old(Passing(window)))
    {
      hide View, Ordered, ReadOnce, Pop, WindowSafe, SimBus.State, StoredAll, PushAll, Reaching;
      ArrivalsQueueUp(bus.State(), order.preferRxb1, Passing(fs));
      ReadRefinesFifo(StoredAll(bus.State(), Passing(fs)), order.preferRxb1, Passing(before), Passing(window));
      out := order.Read(bus, fs, before, window);
    }
  }

  lemma {:induction false} SameCapacity(q: Fifo, fs: Frames)
    ensures PushAll(q, fs).capacity == q.capacity
    decreases |fs|
  {
    if fs != [] { SameCapacity(Push(q, fs[0]), fs[1..]); }
  }
}
