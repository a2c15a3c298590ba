/** The virtual car: several ECUs and periodic sources on one wrapping 32-bit microsecond clock
    (`VirtualCar` and `SimBus::advance` in lib/vecu/src/vecu.cpp). */
module CarSchedule {
  import opened CanTypes
  import opened Vecu

  const MAX_ECUS := 6
  const MAX_TRAFFIC := 4

  /** A periodic source; a period of zero would never let the clock move on. */
  datatype RawPeriodic = Periodic(frame: CanFrame, periodMs: uint16)

  type Periodic = p: RawPeriodic | p.periodMs > 0 witness Periodic(Frame(RawId(false, 0), []), 1)

  function PeriodUs(p: Periodic): (us: nat)
    ensures 0 < us < 0x400_0000
  {
    p.periodMs * 1000
  }

  function PhaseUs(i: nat): nat { 700 + 1300 * i }

  /** How long ago `at` was; below half the clock's range it counts as due. */
  function Lateness(at: uint32, now: uint32): nat { (now - at) % WORD }

  /** `earlier(a, b)`: the sign of the 32-bit difference. */
  predicate Earlier(a: uint32, b: uint32) { (a - b) % WORD >= WORD / 2 }

  /** Between two due timestamps the signed comparison is exact, wherever the clock stands. */
  lemma EarlierIsLater(a: uint32, b: uint32, now: uint32)
    requires Due(a, now) && Due(b, now)
    ensures Earlier(a, b) <==> Lateness(a, now) > Lateness(b, now)
  {
  }

  lemma LaterIsLess(at: uint32, us: nat, now: uint32)
    requires Due(at, now) && us < WORD / 2
    ensures Due(Later(at, us), now) <==> us <= Lateness(at, now)
    ensures us <= Lateness(at, now) ==> Lateness(Later(at, us), now) == Lateness(at, now) - us
  {
  }

  // ---------- The car as a value ----------

  datatype CarSpec = CarSpec(ecus: seq<EcuSpec>, traffic: seq<Periodic>, rate: Bitrate)

  datatype Car = Car(ecus: seq<Ecu>, next: seq<uint32>)

  predicate Fits(spec: CarSpec, car: Car) {
    |car.ecus| == |spec.ecus| && |car.next| == |spec.traffic|
    && forall i :: 0 <= i < |car.ecus| ==> Sound(car.ecus[i])
  }

  /** Source k is ECU k, or periodic source k - |ecus|. When it is due, and since when. */
  function DueSince(car: Car, k: nat): Option<uint32>
    requires k < |car.ecus| + |car.next|
  {
    if k < |car.ecus| then
      if Scheduled(car.ecus[k]) then Some(car.ecus[k].due) else None
    else Some(car.next[k - |car.ecus|])
  }

  predicate Ready(car: Car, k: nat, now: uint32)
    requires k < |car.ecus| + |car.next|
  {
    DueSince(car, k).Some? && Due(DueSince(car, k).value, now)
  }

  /** k is the earliest of the due sources, and the first of those equally early. */
  predicate IsPick(car: Car, k: nat, now: uint32) {
    k < |car.ecus| + |car.next| && Ready(car, k, now)
    && forall j :: 0 <= j < |car.ecus| + |car.next| && Ready(car, j, now) ==>
        var a, b := Lateness(DueSince(car, j).value, now), Lateness(DueSince(car, k).value, now);
        if j < k then a < b else a <= b
  }

  predicate Quiet(car: Car, now: uint32) {
    forall k :: 0 <= k < |car.ecus| + |car.next| ==> !Ready(car, k, now)
  }

  /** Nothing that is due has waited longer than `bound`. */
  predicate NoneLaterThan(car: Car, now: uint32, bound: nat) {
    forall k :: 0 <= k < |car.ecus| + |car.next| && Ready(car, k, now) ==>
      Lateness(DueSince(car, k).value, now) <= bound
  }

  /** How many periods a source jumps when it fires: a backlog of two or more is cut to one. */
  function Jump(behind: nat, period: nat): (n: nat)
    requires period > 0
    ensures n >= 1 && (behind >= period ==> n * period <= behind)
  {
    if behind >= 2 * period then
      BacklogCut(behind, period);
      behind / period
    else 1
  }

  lemma BacklogCut(behind: nat, period: nat)
    requires period > 0 && behind >= 2 * period
    ensures behind / period >= 2 && behind / period * period <= behind
    ensures behind < behind / period * period + period
    ensures (behind / period - 1) * period + period == behind / period * period
  {
    var q := behind / period;
    assert behind == q * period + behind % period;
    assert (q - 1) * period > 0;
  }

  datatype Fired = Fired(car: Car, out: Option<CanFrame>)

  function Fire(spec: CarSpec, car: Car, k: nat, now: uint32): Fired
    requires Fits(spec, car) && k < |car.ecus| + |car.next|
  {
    if k < |car.ecus| then
      var p := Poll(spec.ecus[k], FrameUs(spec.rate), car.ecus[k], now);
      Fired(car.(ecus := car.ecus[k := p.ecu]), p.out)
    else
      var i := k - |car.ecus|;
      var period := PeriodUs(spec.traffic[i]);
      var next := Later(car.next[i], Jump(Lateness(car.next[i], now), period) * period);
      Fired(car.(next := car.next[i := next]), Some(spec.traffic[i].frame))
  }

  // ---------- Each firing makes progress and never goes back in time ----------

  function EcuWork(e: Ecu): nat
    requires Sound(e)
  {
    match e.phase
    case Idle => 0
    case Receiving => 0
    case OweFc => 1
    case AwaitFc => 1
    case OweAnswer => 2
    case OwePending => 3
    case SendingCf => 1 + |e.tx| - e.txSent
  }

  /** How many frames a periodic source still sends at this clock: two if it is a period or more
      behind, one if it is due. */
  function PeriodicWork(next: uint32, period: nat, now: uint32): nat {
    if !Due(next, now) then 0 else if Lateness(next, now) >= period then 2 else 1
  }

  function EcusWork(ecus: seq<Ecu>): nat
    requires forall i :: 0 <= i < |ecus| ==> Sound(ecus[i])
  {
    if ecus == [] then 0 else EcuWork(ecus[0]) + EcusWork(ecus[1..])
  }

  function TrafficWork(traffic: seq<Periodic>, next: seq<uint32>, now: uint32): nat
    requires |traffic| == |next|
  {
    if next == [] then 0
    else PeriodicWork(next[0], PeriodUs(traffic[0]), now) + TrafficWork(traffic[1..], next[1..], now)
  }

  function Work(spec: CarSpec, car: Car, now: uint32): nat
    requires Fits(spec, car)
  {
    EcusWork(car.ecus) + TrafficWork(spec.traffic, car.next, now)
  }

  lemma {:induction false} EcusWorkUpdate(ecus: seq<Ecu>, k: nat, e: Ecu)
    requires forall i :: 0 <= i < |ecus| ==> Sound(ecus[i])
    requires k < |ecus| && Sound(e)
    ensures EcusWork(ecus[k := e]) == EcusWork(ecus) - EcuWork(ecus[k]) + EcuWork(e)
  {
    if k > 0 {
      EcusWorkUpdate(ecus[1..], k - 1, e);
      assert ecus[k := e][1..] == ecus[1..][k - 1 := e];
    }
  }

  lemma {:induction false} TrafficWorkUpdate(traffic: seq<Periodic>, next: seq<uint32>, k: nat, at: uint32, now: uint32)
    requires |traffic| == |next| && k < |next|
    ensures TrafficWork(traffic, next[k := at], now) == TrafficWork(traffic, next, now)
      - PeriodicWork(next[k], PeriodUs(traffic[k]), now) + PeriodicWork(at, PeriodUs(traffic[k]), now)
  {
    if k > 0 {
      TrafficWorkUpdate(traffic[1..], next[1..], k - 1, at, now);
      assert next[k := at][1..] == next[1..][k - 1 := at];
    }
  }

  lemma EcuFires(spec: EcuSpec, rate: Bitrate, e: Ecu, now: uint32)
    requires Sound(e) && Scheduled(e) && Due(e.due, now)
    ensures var e' := Poll(spec, FrameUs(rate), e, now).ecu;
      Sound(e') && EcuWork(e') < EcuWork(e)
      && (Scheduled(e') && Due(e'.due, now) ==> Lateness(e'.due, now) <= Lateness(e.due, now))
  {
    hide Later, Due, Lateness, IsoTp.Padded;
    PollKeepsSound(spec, FrameUs(rate), e, now);
    var e' := Poll(spec, FrameUs(rate), e, now).ecu;
    assert e'.due == e.due || e'.due == Later(e.due, FC_TIMEOUT_US) || e'.due == Later(e.due, e.pendingMs * 1000)
      || e'.due == Later(e.due, GapUs(e.stMinUs, FrameUs(rate)));
    LaterIsLess(e.due, FC_TIMEOUT_US, now);
    LaterIsLess(e.due, e.pendingMs * 1000, now);
    LaterIsLess(e.due, GapUs(e.stMinUs, FrameUs(rate)), now);
  }

  lemma PeriodicFires(next: uint32, period: nat, now: uint32)
    requires 0 < period < 0x400_0000 && Due(next, now)
    ensures var next' := Later(next, Jump(Lateness(next, now), period) * period);
      PeriodicWork(next', period, now) == PeriodicWork(next, period, now) - 1
      && (Due(next', now) ==> Lateness(next', now) <= Lateness(next, now))
  {
    var behind := Lateness(next, now);
    var jump := Jump(behind, period) * period;
    if behind >= 2 * period { BacklogCut(behind, period); }
    LaterIsLess(next, jump, now);
  }

  /** Main step: firing the pick costs work and leaves nothing due that is later than it was. */
  lemma FiringMovesOn(spec: CarSpec, car: Car, k: nat, now: uint32)
    requires Fits(spec, car) && IsPick(car, k, now)
    ensures var car' := Fire(spec, car, k, now).car;
      Fits(spec, car') && Work(spec, car', now) < Work(spec, car, now)
      && NoneLaterThan(car', now, Lateness(DueSince(car, k).value, now))
      && (k >= |car.ecus| ==> Fire(spec, car, k, now).out.Some?)
  {
    hide Poll, Due, Lateness, PeriodicWork, EcuWork, Jump;
    var car' := Fire(spec, car, k, now).car;
    var at := DueSince(car, k).value;
    if k < |car.ecus| {
      EcuFires(spec.ecus[k], spec.rate, car.ecus[k], now);
      EcusWorkUpdate(car.ecus, k, Poll(spec.ecus[k], FrameUs(spec.rate), car.ecus[k], now).ecu);
    } else {
      var i := k - |car.ecus|;
      var period := PeriodUs(spec.traffic[i]);
      PeriodicFires(car.next[i], period, now);
      TrafficWorkUpdate(spec.traffic, car.next, i,
                        Later(car.next[i], Jump(Lateness(car.next[i], now), period) * period), now);
    }
    forall j | 0 <= j < |car'.ecus| + |car'.next| && Ready(car', j, now)
      ensures Lateness(DueSince(car', j).value, now) <= Lateness(at, now) {
      if j != k { assert DueSince(car', j) == DueSince(car, j); }
    }
  }

  // ---------- Draining everything that is due at one clock value ----------

  /** One source firing: the car just before it, the source, and its frame, if any. */
  datatype Firing = Firing(before: Car, source: nat, out: Option<CanFrame>)

  function After(log: seq<Firing>, i: nat, end: Car): Car
    requires i < |log|
  {
    if i + 1 < |log| then log[i + 1].before else end
  }

  /** `log` leads from `start` to `end` by firing the earliest due source each time. */
  predicate IsRun(spec: CarSpec, now: uint32, start: Car, log: seq<Firing>, end: Car) {
    Fits(spec, start) && (if log == [] then start == end else log[0].before == start)
    && forall i :: 0 <= i < |log| ==> Fires(spec, now, log[i], After(log, i, end))
  }

  predicate Fires(spec: CarSpec, now: uint32, f: Firing, after: Car) {
    Fits(spec, f.before) && IsPick(f.before, f.source, now)
    && Fire(spec, f.before, f.source, now) == Fired(after, f.out)
  }

  function Since(f: Firing): uint32 {
    if f.source < |f.before.ecus| + |f.before.next| && DueSince(f.before, f.source).Some?
    then DueSince(f.before, f.source).value else 0
  }

  function Times(log: seq<Firing>, source: nat): nat {
    if log == [] then 0
    else Times(log[..|log| - 1], source) + (if log[|log| - 1].source == source then 1 else 0)
  }

  lemma RunPrefix(spec: CarSpec, now: uint32, start: Car, log: seq<Firing>, end: Car)
    requires log != [] && IsRun(spec, now, start, log, end)
    ensures IsRun(spec, now, start, log[..|log| - 1], log[|log| - 1].before)
  {
    hide Fires, Fits;
    var front := log[..|log| - 1];
    forall i | 0 <= i < |front| ensures After(front, i, log[|log| - 1].before) == After(log, i, end) {}
  }

  lemma RunExtends(spec: CarSpec, now: uint32, start: Car, log: seq<Firing>, end: Car, k: nat)
    requires IsRun(spec, now, start, log, end) && Fits(spec, end) && IsPick(end, k, now)
    ensures var fired := Fire(spec, end, k, now);
      IsRun(spec, now, start, log + [Firing(end, k, fired.out)], fired.car)
  {
    var fired := Fire(spec, end, k, now);
    var last := Firing(end, k, fired.out);
    assert Fires(spec, now, last, fired.car);
    hide Fires, Fits, IsPick, Fire;
    var all := log + [last];
    forall i | 0 <= i < |all| ensures Fires(spec, now, all[i], After(all, i, fired.car)) {
      if i < |log| { assert After(all, i, fired.car) == After(log, i, end); }
    }
  }

  lemma {:induction false} RunWork(spec: CarSpec, now: uint32, start: Car, log: seq<Firing>, end: Car)
    requires IsRun(spec, now, start, log, end)
    ensures Fits(spec, start) && Fits(spec, end) && |log| + Work(spec, end, now) <= Work(spec, start, now)
    decreases |log|
  {
    hide Work, IsPick, Fire, Fits, NoneLaterThan;
    if log != [] {
      var last := log[|log| - 1];
      RunPrefix(spec, now, start, log, end);
      RunWork(spec, now, start, log[..|log| - 1], last.before);
      assert Fires(spec, now, last, After(log, |log| - 1, end));
      FiringMovesOn(spec, last.before, last.source, now);
    }
  }

  /** Main result: within a drain, sources fire in order of the time they were due, whatever the
      clock value, its wrap-around included. */
  lemma DrainInOrder(spec: CarSpec, now: uint32, start: Car, log: seq<Firing>, end: Car, i: nat, j: nat)
    requires IsRun(spec, now, start, log, end) && i <= j < |log|
    ensures Due(Since(log[i]), now) && Due(Since(log[j]), now)
    ensures Lateness(Since(log[j]), now) <= Lateness(Since(log[i]), now)
    ensures !Earlier(Since(log[j]), Since(log[i]))
    decreases j - i
  {
    hide Work, Fire, Earlier, Due, Lateness, Fits, IsRun;
    SinceIsDue(spec, now, start, log, end, i);
    SinceIsDue(spec, now, start, log, end, j);
    EarlierIsLater(Since(log[j]), Since(log[i]), now);
    if i < j {
      DrainInOrder(spec, now, start, log, end, i, j - 1);
      NextNotEarlier(spec, now, start, log, end, j - 1);
    }
  }

  lemma SinceIsDue(spec: CarSpec, now: uint32, start: Car, log: seq<Firing>, end: Car, i: nat)
    requires IsRun(spec, now, start, log, end) && i < |log|
    ensures Due(Since(log[i]), now)
  {
    hide Work, Fire, Due, Lateness, Fits;
    assert Fires(spec, now, log[i], After(log, i, end));
  }

  lemma NextNotEarlier(spec: CarSpec, now: uint32, start: Car, log: seq<Firing>, end: Car, i: nat)
    requires IsRun(spec, now, start, log, end) && i + 1 < |log|
    ensures Lateness(Since(log[i + 1]), now) <= Lateness(Since(log[i]), now)
  {
    hide Work, Fire, Due, Lateness, Fits;
    assert Fires(spec, now, log[i], log[i + 1].before) by { assert After(log, i, end) == log[i + 1].before; }
    assert Fires(spec, now, log[i + 1], After(log, i + 1, end));
    FiringMovesOn(spec, log[i].before, log[i].source, now);
  }

  /** A periodic source fires exactly as often as its backlog, cut to two, says. */
  lemma {:induction false} TimesIsBacklog(spec: CarSpec, now: uint32, start: Car, log: seq<Firing>, end: Car, i: nat)
    requires IsRun(spec, now, start, log, end) && i < |spec.traffic|
    ensures Fits(spec, end)
    ensures Times(log, |spec.ecus| + i) + PeriodicWork(end.next[i], PeriodUs(spec.traffic[i]), now)
      == PeriodicWork(start.next[i], PeriodUs(spec.traffic[i]), now)
    decreases |log|
  {
    hide PeriodicWork, Poll, Jump, Lateness;
    RunWork(spec, now, start, log, end);
    if log != [] {
      var last := log[|log| - 1];
      RunPrefix(spec, now, start, log, end);
      TimesIsBacklog(spec, now, start, log[..|log| - 1], last.before, i);
      assert Fires(spec, now, last, end) by { assert After(log, |log| - 1, end) == end; }
      if last.source == |spec.ecus| + i {
        PeriodicFires(last.before.next[i], PeriodUs(spec.traffic[i]), now);
      }
    }
  }

  /** Main result: when the drain is over, each periodic source sent no frame, one, or two: none
      if it was not due, two if it was at least one period behind. */
  lemma AtMostTwoPerSource(spec: CarSpec, now: uint32, start: Car, log: seq<Firing>, end: Car, i: nat)
    requires IsRun(spec, now, start, log, end) && Quiet(end, now) && i < |spec.traffic|
    ensures Fits(spec, end)
    ensures Times(log, |spec.ecus| + i) ==
      if !Due(start.next[i], now) then 0
      else if Lateness(start.next[i], now) >= 1000 * spec.traffic[i].periodMs then 2 else 1
  {
    hide IsRun, Times, Lateness, Fits;
    TimesIsBacklog(spec, now, start, log, end, i);
    NotDueAnyMore(spec, end, i, now);
  }

  lemma NotDueAnyMore(spec: CarSpec, end: Car, i: nat, now: uint32)
    requires Fits(spec, end) && Quiet(end, now) && i < |spec.traffic|
    ensures PeriodicWork(end.next[i], PeriodUs(spec.traffic[i]), now) == 0
  {
    hide Lateness, PeriodUs, Sound;
    assert !Ready(end, |spec.ecus| + i, now);
  }

  // ---------- The object ----------

  /** Distinct ECU objects, one for each specification. */
  ghost predicate Built(ecus: seq<VirtualEcu>, specs: seq<EcuSpec>, frameUs: nat, objects: set<object>)
    reads objects
  {
    |ecus| == |specs| && (forall i :: 0 <= i < |ecus| ==> ecus[i] in objects && ecus[i].req in objects)
    && (forall i, j :: 0 <= i < j < |ecus| ==> ecus[i] != ecus[j] && ecus[i].req != ecus[j].req)
    && forall i :: 0 <= i < |ecus| ==> ecus[i].Valid() && ecus[i].spec == specs[i] && ecus[i].frameUs == frameUs
  }

  method BuildEcus(specs: seq<EcuSpec>, rate: Bitrate) returns (ecus: seq<VirtualEcu>, ghost objects: set<object>)
    ensures Built(ecus, specs, FrameUs(rate), objects) && fresh(objects)
    ensures forall i :: 0 <= i < |ecus| ==> ecus[i] in objects && ecus[i].phase == Idle
  {
    hide Sound, FrameUs, VirtualEcu.Valid;
    ecus, objects := [], {};
    for i := 0 to |specs|
      invariant |ecus| == i && fresh(objects) && Built(ecus, specs[..i], FrameUs(rate), objects)
      invariant forall k :: 0 <= k < i ==> ecus[k].phase == Idle
    {
      var ecu := new VirtualEcu(specs[i], rate);
      ecus, objects := ecus + [ecu], objects + {ecu, ecu.req};
    }
    assert specs[..|specs|] == specs;
  }

  lemma AtFirst(next: seq<uint32>, laps: seq<nat>, traffic: seq<Periodic>)
    requires |traffic| <= |next| && laps == seq(|traffic|, _ => 0)
    requires forall i :: 0 <= i < |next| ==> next[i] == PhaseUs(i) % WORD
    ensures forall i :: 0 <= i < |laps| ==> OnPhase(next[i], i, laps[i], PeriodUs(traffic[i]))
  {
  }

  class VirtualCar {
    const spec: CarSpec
    const ecus: seq<VirtualEcu>
    const nextPeriodicUs: array<uint32>
    /** How many periods each source has moved on since power-up, on a clock that never wraps. */
    ghost var laps: seq<nat>

    ghost const ecuObjects: set<object>

    ghost predicate Valid()
      reads this, nextPeriodicUs, ecuObjects
    {
      Built(ecus, spec.ecus, FrameUs(spec.rate), ecuObjects)
      && this !in ecuObjects && nextPeriodicUs !in ecuObjects
      && |spec.ecus| <= MAX_ECUS && |spec.traffic| <= MAX_TRAFFIC
      && nextPeriodicUs.Length == MAX_TRAFFIC && |laps| == |spec.traffic|
      && forall i :: 0 <= i < |laps| ==> OnPhase(nextPeriodicUs[i], i, laps[i], PeriodUs(spec.traffic[i]))
    }

    /** Every source is due at 0.7 ms, 1.3 ms after the source before it, and then each period. */
    lemma OnSchedule(i: nat)
      requires Valid() && i < |spec.traffic|
      ensures nextPeriodicUs[i] == (700 + 1300 * i + laps[i] * (1000 * spec.traffic[i].periodMs)) % WORD
    {
    }

    ghost function State(): Car
      reads this, nextPeriodicUs, ecuObjects
      requires Valid()
    {
      Car(seq(|ecus|, i requires 0 <= i < |ecus| && Valid() reads this, nextPeriodicUs, ecuObjects => ecus[i].State()),
          nextPeriodicUs[..|spec.traffic|])
    }

    constructor (wanted: CarSpec)
      ensures Valid() && fresh(ecuObjects) && fresh(nextPeriodicUs)
      ensures spec == Clamped(wanted) && laps == seq(|spec.traffic|, _ => 0)
      ensures forall i :: 0 <= i < |ecus| ==> State().ecus[i].phase == Idle
    {
      hide Sound, PeriodUs, FrameUs, Built, VirtualEcu.Valid;
      var fits := Clamped(wanted);
      var built;
      ghost var objects;
      built, objects := BuildEcus(fits.ecus, fits.rate);
      spec, ecus, ecuObjects := fits, built, objects;
      nextPeriodicUs := new uint32[MAX_TRAFFIC](i => PhaseUs(i) % WORD);
      laps := seq(|fits.traffic|, _ => 0);
      new;
      AtFirst(nextPeriodicUs[..], laps, fits.traffic);
    }

    method Deliver(f: CanFrame, now: uint32)
      requires Valid()
      modifies ecuObjects
      ensures Valid() && laps == old(laps)
      ensures State().next == old(State().next) && |State().ecus| == |old(State().ecus)|
      ensures forall i :: 0 <= i < |ecus| ==>
        State().ecus[i] == Vecu.Deliver(spec.ecus[i], FrameUs(spec.rate), old(State().ecus[i]), f, now)
    {
      hide Vecu.Deliver, OnPhase, PeriodUs, FrameUs, VirtualEcu.State;
      for i := 0 to |ecus|
        invariant Valid() && nextPeriodicUs[..] == old(nextPeriodicUs[..])
        invariant forall k :: 0 <= k < i ==>
          ecus[k].State() == Vecu.Deliver(spec.ecus[k], FrameUs(spec.rate), old(ecus[k].State()), f, now)
        invariant forall k :: i <= k < |ecus| ==> ecus[k].State() == old(ecus[k].State())
      {
        ecus[i].DeliverFrame(f, now);
      }
    }

    /** The earliest due source: ECUs first, then periodic traffic, earlier index first. */
    method Pick(now: uint32) returns (k: Option<nat>)
      requires Valid()
      ensures if k.None? then Quiet(State(), now) else IsPick(State(), k.value, now)
    {
      hide Sound, OnPhase, Due, Earlier, Lateness, PickedUpTo, IsPick, Quiet;
      var best: uint32 := 0;
      k := None;
      ghost var car := State();
      PickNone(car, now, best);
      for i := 0 to |ecus|
        invariant PickedUpTo(car, now, i, k, best)
      {
        var at := ecus[i].NextDue();
        assert DueSince(car, i) == at;
        PickNext(car, now, i, k, best);
        if at.Some? && Due(at.value, now) && (k.None? || Earlier(at.value, best)) {
          k, best := Some(i), at.value;
        }
      }
      for i := 0 to |spec.traffic|
        invariant PickedUpTo(car, now, |ecus| + i, k, best)
      {
        var at := nextPeriodicUs[i];
        assert DueSince(car, |ecus| + i) == Some(at);
        PickNext(car, now, |ecus| + i, k, best);
        if Due(at, now) && (k.None? || Earlier(at, best)) {
          k, best := Some(|ecus| + i), at;
        }
      }
      PickAll(car, now, k, best);
      assert State() == car;
    }

    /** When the car next does something. Main result: once everything due has been drained, no
        source acts before the time returned, so a wait until then is never late. */
    method NextDue(ghost now: uint32) returns (at: Option<uint32>)
      requires Valid()
      ensures at.None? <==> forall k :: 0 <= k < |State().ecus| + |State().next| ==> DueSince(State(), k).None?
      ensures at.Some? && Quiet(State(), now) ==> IsSoonest(State(), at.value, now)
    {
      hide Sound, OnPhase, Due, Earlier, Until, Quiet, SoonestUpTo, IsSoonest;
      at := None;
      ghost var car := State();
      SoonestNone(car, now);
      for i := 0 to |ecus|
        invariant SoonestUpTo(car, now, i, at)
      {
        var due := ecus[i].NextDue();
        assert DueSince(car, i) == due;
        SoonestNext(car, now, i, at);
        if due.Some? && (at.None? || Earlier(due.value, at.value)) { at := due; }
      }
      for i := 0 to |spec.traffic|
        invariant SoonestUpTo(car, now, |ecus| + i, at)
      {
        assert DueSince(car, |ecus| + i) == Some(nextPeriodicUs[i]);
        SoonestNext(car, now, |ecus| + i, at);
        if at.None? || Earlier(nextPeriodicUs[i], at.value) { at := Some(nextPeriodicUs[i]); }
      }
      SoonestAll(car, now, at);
      assert State() == car;
    }

    /** ECU k acts; it may time out without a frame. */
    method FireEcu(k: nat, now: uint32) returns (out: Option<CanFrame>)
      requires Valid() && k < |ecus| && Fits(spec, State())
      modifies ecuObjects
      ensures Valid() && Fired(State(), out) == Fire(spec, old(State()), k, now)
    {
      hide Poll, Sound, OnPhase, PeriodUs;
      ghost var car := State();
      out := ecus[k].PollFrame(now);
      assert State().ecus == car.ecus[k := ecus[k].State()];
    }

    /** Periodic source i sends, and skips all but the last period of a backlog. */
    method FirePeriodic(i: nat, now: uint32) returns (out: CanFrame)
      requires Valid() && i < |spec.traffic| && Fits(spec, State())
      modifies this`laps, nextPeriodicUs
      ensures Valid() && Fired(State(), Some(out)) == Fire(spec, old(State()), |ecus| + i, now)
    {
      hide Sound, OnPhase, PeriodUs;
      ghost var car := State();
      var period := PeriodUs(spec.traffic[i]);
      var next := nextPeriodicUs[i];
      ghost var jump := Jump((now - next) % WORD, period);
      out := spec.traffic[i].frame;
      var behind := (now - next) % WORD;
      NextPeriod(next, behind, period);
      if behind >= 2 * period { next := (next + (behind / period - 1) * period) % WORD; }
      nextPeriodicUs[i] := (next + period) % WORD;
      PhaseKept(car.next[i], i, laps[i], period, jump);
      laps := laps[i := laps[i] + jump];
      assert State().next == car.next[i := nextPeriodicUs[i]];
      assert State().ecus == car.ecus;
    }

    /** Earliest-due frame, if one is due; due time-outs without a frame are passed over. */
    method PollCar(now: uint32, ghost start: Car, ghost log0: seq<Firing>)
      returns (out: Option<CanFrame>, ghost log: seq<Firing>)
      requires Valid() && IsRun(spec, now, start, log0, State())
      modifies this`laps, nextPeriodicUs, ecuObjects
      ensures Valid() && IsRun(spec, now, start, log, State())
      ensures log0 <= log && Outputs(log) == Outputs(log0) + (if out.Some? then [out.value] else [])
      ensures if out.None? then Quiet(State(), now) else |log| > |log0|
    {
      hide Fire, IsPick, Quiet, Sound, OnPhase, NoneLaterThan, Work, IsRun;
      log := log0;
      while true
        invariant Valid() && IsRun(spec, now, start, log, State())
        invariant log0 <= log && Outputs(log) == Outputs(log0)
        decreases RunLeft(spec, start, log, now)
      {
        ghost var before := State();
        RunWork(spec, now, start, log, before);
        var k := Pick(now);
        if k.None? { return None, log; }
        RunExtends(spec, now, start, log, before, k.value);
        PickFacts(spec, before, k.value, now);
        if k.value < |ecus| {
          out := FireEcu(k.value, now);
        } else {
          var frame := FirePeriodic(k.value - |ecus|, now);
          out := Some(frame);
        }
        ghost var last := Firing(before, k.value, out);
        assert (log + [last])[..|log|] == log;
        log := log + [last];
        RunWork(spec, now, start, log, State());
        if out.Some? { return; }
      }
    }

    /** `SimBus::advance`: poll at one clock value until nothing is due. The log is the run that
        `DrainInOrder` and `AtMostTwoPerSource` speak of. */
    method Drain(now: uint32) returns (frames: seq<CanFrame>, ghost log: seq<Firing>)
      requires Valid()
      modifies this`laps, nextPeriodicUs, ecuObjects
      ensures Valid() && Quiet(State(), now)
      ensures IsRun(spec, now, old(State()), log, State()) && frames == Outputs(log)
    {
      hide Fire, IsPick, Quiet, Sound, OnPhase, Work, IsRun;
      ghost var start := State();
      frames, log := [], [];
      RunStarts(spec, now, start);
      while true
        invariant Valid() && IsRun(spec, now, start, log, State()) && frames == Outputs(log)
        decreases RunLeft(spec, start, log, now)
      {
        var out;
        out, log := PollCar(now, start, log);
        RunWork(spec, now, start, log, State());
        if out.None? { return; }
        frames := frames + [out.value];
      }
    }
  }

  lemma RunStarts(spec: CarSpec, now: uint32, start: Car)
    requires Fits(spec, start)
    ensures IsRun(spec, now, start, [], start)
  {
  }

  function Clamped(wanted: CarSpec): CarSpec {
    wanted.(ecus := if |wanted.ecus| > MAX_ECUS then wanted.ecus[..MAX_ECUS] else wanted.ecus,
            traffic := if |wanted.traffic| > MAX_TRAFFIC then wanted.traffic[..MAX_TRAFFIC] else wanted.traffic)
  }

  function Outputs(log: seq<Firing>): seq<CanFrame> {
    if log == [] then []
    else Outputs(log[..|log| - 1]) + (if log[|log| - 1].out.Some? then [log[|log| - 1].out.value] else [])
  }

  /** The stored time is the wrapped view of phase + laps * period. */
  predicate OnPhase(next: uint32, i: nat, laps: nat, period: nat) {
    next == (PhaseUs(i) + laps * period) % WORD
  }

  lemma PhaseKept(next: uint32, i: nat, laps: nat, period: nat, jump: nat)
    requires OnPhase(next, i, laps, period)
    ensures OnPhase(Later(next, jump * period), i, laps + jump, period)
  {
    assert (laps + jump) * period == laps * period + jump * period;
    ModAdd(PhaseUs(i) + laps * period, jump * period);
  }

  lemma NextPeriod(next: uint32, behind: nat, period: nat)
    requires period > 0
    ensures Later(next, Jump(behind, period) * period) ==
      ((if behind >= 2 * period then (next + (behind / period - 1) * period) % WORD else next) + period) % WORD
  {
    if behind >= 2 * period {
      BacklogCut(behind, period);
      ModAdd(next + (behind / period - 1) * period, period);
    }
  }

  lemma ModAdd(x: nat, y: nat)
    ensures (x % WORD + y) % WORD == (x + y) % WORD
  {
  }

  ghost function RunLeft(spec: CarSpec, start: Car, log: seq<Firing>, now: uint32): int {
    if Fits(spec, start) then Work(spec, start, now) - |log| else 0
  }

  lemma PickFacts(spec: CarSpec, car: Car, k: nat, now: uint32)
    requires IsPick(car, k, now)
    ensures k < |car.ecus| + |car.next|
  {
  }

  lemma PickNone(car: Car, now: uint32, best: uint32)
    ensures PickedUpTo(car, now, 0, None, best)
  {
  }

  lemma PickNext(car: Car, now: uint32, n: nat, k: Option<nat>, best: uint32)
    requires n < |car.ecus| + |car.next| && PickedUpTo(car, now, n, k, best)
    ensures var at := DueSince(car, n);
      if at.Some? && Due(at.value, now) && (k.None? || Earlier(at.value, best))
      then PickedUpTo(car, now, n + 1, Some(n), at.value)
      else PickedUpTo(car, now, n + 1, k, best)
  {
    hide Due, Lateness, Earlier;
    var at := DueSince(car, n);
    if at.Some? && Due(at.value, now) && k.Some? { EarlierIsLater(at.value, best, now); }
  }

  lemma PickAll(car: Car, now: uint32, k: Option<nat>, best: uint32)
    requires PickedUpTo(car, now, |car.ecus| + |car.next|, k, best)
    ensures if k.None? then Quiet(car, now) else IsPick(car, k.value, now)
  {
  }

  /** Loop invariant of `Pick`: k is the pick among the first n sources, due since `best`. */
  ghost predicate PickedUpTo(car: Car, now: uint32, n: nat, k: Option<nat>, best: uint32)
    requires n <= |car.ecus| + |car.next|
  {
    if k.None? then forall j :: 0 <= j < n ==> !Ready(car, j, now)
    else
      k.value < n && Ready(car, k.value, now) && DueSince(car, k.value) == Some(best)
      && forall j :: 0 <= j < n && Ready(car, j, now) ==>
          var a := Lateness(DueSince(car, j).value, now);
          if j < k.value then a < Lateness(best, now) else a <= Lateness(best, now)
  }

  // ---------- The next time anything happens ----------

  /** How far ahead `at` is. */
  function Until(at: uint32, now: uint32): nat { (at - now) % WORD }

  /** Between two times that are still ahead, the signed comparison is exact as well. */
  lemma EarlierIsSooner(a: uint32, b: uint32, now: uint32)
    requires !Due(a, now) && !Due(b, now)
    ensures Earlier(a, b) <==> Until(a, now) < Until(b, now)
  {
    AheadFor(a, now);
    AheadFor(b, now);
    DifferenceAhead(a, b, now);
    SignOf(Until(a, now) - Until(b, now));
  }

  lemma AheadFor(at: uint32, now: uint32)
    requires !Due(at, now)
    ensures 0 < Until(at, now) <= WORD / 2
  {
  }

  lemma DifferenceAhead(a: uint32, b: uint32, now: uint32)
    ensures (a - b) % WORD == (Until(a, now) - Until(b, now)) % WORD
  {
  }

  lemma SignOf(d: int)
    requires -WORD / 2 < d < WORD / 2
    ensures d % WORD >= WORD / 2 <==> d < 0
  {
  }

  /** Some source acts at `at`, and none before. */
  predicate IsSoonest(car: Car, at: uint32, now: uint32) {
    (exists k :: 0 <= k < |car.ecus| + |car.next| && DueSince(car, k) == Some(at))
    && forall k :: 0 <= k < |car.ecus| + |car.next| && DueSince(car, k).Some? ==>
        Until(at, now) <= Until(DueSince(car, k).value, now)
  }

  /** Loop invariant of `NextDue`, over the first n sources. */
  ghost predicate SoonestUpTo(car: Car, now: uint32, n: nat, at: Option<uint32>)
    requires n <= |car.ecus| + |car.next|
  {
    (at.None? <==> forall k :: 0 <= k < n ==> DueSince(car, k).None?)
    && (at.Some? ==> exists k :: 0 <= k < n && DueSince(car, k) == at)
    && (at.Some? && Quiet(car, now) ==>
          forall k :: 0 <= k < n && DueSince(car, k).Some? ==> Until(at.value, now) <= Until(DueSince(car, k).value, now))
  }

  lemma SoonestNone(car: Car, now: uint32)
    ensures SoonestUpTo(car, now, 0, None)
  {
  }

  lemma SoonestNext(car: Car, now: uint32, n: nat, at: Option<uint32>)
    requires n < |car.ecus| + |car.next| && SoonestUpTo(car, now, n, at)
    ensures var due := DueSince(car, n);
      SoonestUpTo(car, now, n + 1, if due.Some? && (at.None? || Earlier(due.value, at.value)) then due else at)
  {
    hide Due, Until, Earlier;
    var due := DueSince(car, n);
    if due.Some? && at.Some? && Quiet(car, now) {
      assert !Ready(car, n, now);
      var k :| 0 <= k < n && DueSince(car, k) == at;
      assert !Ready(car, k, now);
      EarlierIsSooner(due.value, at.value, now);
    }
  }

  lemma SoonestAll(car: Car, now: uint32, at: Option<uint32>)
    requires SoonestUpTo(car, now, |car.ecus| + |car.next|, at)
    ensures at.None? <==> forall k :: 0 <= k < |car.ecus| + |car.next| ==> DueSince(car, k).None?
    ensures at.Some? && Quiet(car, now) ==> IsSoonest(car, at.value, now)
  {
  }
}
