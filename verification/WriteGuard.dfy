/** The write guard (lib/elm/src/guard.h and guard.cpp): which tier a frame needs, and how that
    verdict depends on everything the guard was shown since power-up. */
module WriteGuard {
  import opened CanTypes

  datatype Tier = Read | Clear | Write {
    function Rank(): nat {
      match this case Read => 0 case Clear => 1 case Write => 2
    }

    predicate AtMost(other: Tier) { Rank() <= other.Rank() }
  }

  const HEARD_CAPACITY := 128

  function TierOfService(sid: byte, hasSub: bool, sub: byte): Tier {
    if sid == 0x10 then
      if hasSub && (sub == 0x02 || sub == 0x82 || sub == 0x85) then Write else Read
    else if sid in {0x01, 0x02, 0x03, 0x05, 0x06, 0x07, 0x09, 0x0A, 0x12, 0x17, 0x18, 0x19, 0x1A,
                    0x20, 0x21, 0x22, 0x23, 0x24, 0x3E, 0x81, 0x82, 0x83} then Read
    else if sid == 0x04 || sid == 0x14 then Clear
    else Write
  }

  predicate IsDiagnosticId(id: CanId) {
    if !id.ext then id.value >= 0x600
    else id.value / 0x1_0000 == 0x18DA || id.value / 0x1_0000 == 0x18DB
  }

  /** The tier of a frame that carries its own service byte. */
  function ServiceTier(f: CanFrame): Tier {
    match PciOf(f)
    case FlowControl => Read
    case Single =>
      var n := SingleFrameLength(f);
      if n == 0 then Write
      else TierOfService(f.data[1], n >= 2, if n >= 2 then f.data[2] else 0)
    case First =>
      if |f.data| < 3 then Write
      else TierOfService(f.data[2], |f.data| >= 4, if |f.data| >= 4 then f.data[3] else 0)
    case _ => Write
  }

  // ---------- What the guard stores ----------

  datatype GuardState = GuardState(tier: Tier, haveFirst: bool, firstId: CanId, firstTier: Tier,
                                   heard: seq<CanId>)

  const POWER_UP := GuardState(Read, false, RawId(false, 0), Write, [])

  function Classify(g: GuardState, f: CanFrame): Tier {
    if !IsDiagnosticId(f.id) || f.id in g.heard then Write
    else if PciOf(f) == Consecutive then
      if g.haveFirst && g.firstId == f.id then g.firstTier else Write
    else ServiceTier(f)
  }

  datatype GuardEvent = Offered(frame: CanFrame) | HeardTraffic(id: CanId) | TierSet(tier: Tier)

  type History = seq<GuardEvent>

  function Apply(g: GuardState, e: GuardEvent): GuardState {
    match e
    case TierSet(t) => g.(tier := t)
    case HeardTraffic(id) =>
      if IsDiagnosticId(id) then g.(heard := WithId(g.heard, id, HEARD_CAPACITY)) else g
    case Offered(f) =>
      if PciOf(f) == First then g.(haveFirst := true, firstId := f.id, firstTier := Classify(g, f))
      else if PciOf(f) == Single && g.haveFirst && g.firstId == f.id then g.(haveFirst := false)
      else g
  }

  function Replay(h: History): GuardState {
    if h == [] then POWER_UP else Apply(Replay(h[..|h| - 1]), h[|h| - 1])
  }

  /** The words of AT#GUARD. */
  function TierText(t: Tier): string {
    match t
    case Read => "READ"
    case Clear => "CLEAR"
    case Write => "WRITE"
  }

  // ---------- What the design promises, stated on the history alone ----------

  function TierNow(h: History): Tier {
    if h == [] then Read
    else if h[|h| - 1].TierSet? then h[|h| - 1].tier
    else TierNow(h[..|h| - 1])
  }

  /** The diagnostic ids heard as traffic, without any bound on their number. */
  function DiagnosticTraffic(h: History): set<CanId> {
    set i | 0 <= i < |h| && h[i].HeardTraffic? && IsDiagnosticId(h[i].id) :: h[i].id
  }

  /** The id is one of the first 128 distinct diagnostic ids heard as traffic. */
  ghost predicate Recorded(h: History, id: CanId) {
    exists i :: 0 <= i < |h| && FirstHeard(h, i, id) && |DiagnosticTraffic(h[..i])| < 128
  }

  predicate FirstHeard(h: History, i: nat, id: CanId)
    requires i < |h|
  {
    h[i] == HeardTraffic(id) && IsDiagnosticId(id) && id !in DiagnosticTraffic(h[..i])
  }

  /** h[k] is the first frame that decides about consecutive frames on `id`: no first frame was
      offered after it, on any id, and no single frame on `id`. */
  predicate Governs(h: History, k: nat, id: CanId)
    requires k < |h|
  {
    h[k].Offered? && PciOf(h[k].frame) == First && h[k].frame.id == id
    && forall j :: k < j < |h| && h[j].Offered? ==>
        PciOf(h[j].frame) != First && !(PciOf(h[j].frame) == Single && h[j].frame.id == id)
  }

  /** The tier the design demands for `f` after history `h`. */
  ghost function RequiredTier(h: History, f: CanFrame): Tier {
    if !IsDiagnosticId(f.id) || Recorded(h, f.id) then Write
    else if PciOf(f) == Consecutive then
      if exists k :: 0 <= k < |h| && Governs(h, k, f.id) then
        var k :| 0 <= k < |h| && Governs(h, k, f.id);
        RequiredTier(h[..k], h[k].frame)
      else Write
    else ServiceTier(f)
  }

  /** The tier in force covers what the frame needs. */
  ghost predicate Passes(h: History, f: CanFrame) { RequiredTier(h, f).AtMost(TierNow(h)) }

  // ---------- The heard ids ----------

  predicate NoDuplicates<T(==)>(s: seq<T>) {
    forall i, j :: 0 <= i < j < |s| ==> s[i] != s[j]
  }

  lemma DiagnosticTrafficNext(h: History)
    requires h != []
    ensures var e := h[|h| - 1];
      DiagnosticTraffic(h) == DiagnosticTraffic(h[..|h| - 1])
        + (if e.HeardTraffic? && IsDiagnosticId(e.id) then {e.id} else {})
  {
    var front := h[..|h| - 1];
    forall id | id in DiagnosticTraffic(h) ensures
        id in DiagnosticTraffic(front) || h[|h| - 1] == HeardTraffic(id) {
      var i :| 0 <= i < |h| && h[i].HeardTraffic? && IsDiagnosticId(h[i].id) && h[i].id == id;
      if i < |h| - 1 { assert front[i] == h[i]; }
    }
    forall id | id in DiagnosticTraffic(front) ensures id in DiagnosticTraffic(h) {
      var i :| 0 <= i < |front| && front[i].HeardTraffic? && IsDiagnosticId(front[i].id) && front[i].id == id;
      assert h[i] == front[i];
    }
  }

  function Elements<T>(s: seq<T>): set<T> { set x | x in s }

  lemma {:induction false} ElementsSize<T>(s: seq<T>)
    requires NoDuplicates(s)
    ensures |Elements(s)| == |s|
  {
    if s != [] {
      var front, last := s[..|s| - 1], s[|s| - 1];
      ElementsSize(front);
      assert Elements(s) == Elements(front) + {last};
      assert last !in Elements(front);
    }
  }

  /** The stored list never repeats an id, and until it is full it misses none. */
  lemma {:induction false} HeardList(h: History)
    ensures var heard := Replay(h).heard;
      NoDuplicates(heard) && Elements(heard) <= DiagnosticTraffic(h) && |heard| <= HEARD_CAPACITY
      && (|heard| < HEARD_CAPACITY ==> Elements(heard) == DiagnosticTraffic(h))
  {
    if h != [] {
      HeardList(h[..|h| - 1]);
      DiagnosticTrafficNext(h);
    }
  }

  lemma {:induction false} RecordedNext(h: History, id: CanId)
    requires h != []
    ensures var n := |h| - 1;
      Recorded(h, id) <==>
        (Recorded(h[..n], id)
         || (FirstHeard(h, n, id) && |DiagnosticTraffic(h[..n])| < HEARD_CAPACITY))
  {
    var front := h[..|h| - 1];
    forall i | 0 <= i < |front| ensures front[..i] == h[..i] && front[i] == h[i] {}
    if Recorded(h, id) {
      var i :| 0 <= i < |h| && FirstHeard(h, i, id) && |DiagnosticTraffic(h[..i])| < HEARD_CAPACITY;
      if i < |front| { assert FirstHeard(front, i, id); }
    }
    if Recorded(front, id) {
      var i :| 0 <= i < |front| && FirstHeard(front, i, id) && |DiagnosticTraffic(front[..i])| < HEARD_CAPACITY;
      assert FirstHeard(h, i, id);
    }
  }

  /** Main result: whatever happened since power-up, the recorded ids are exactly the first 128
      distinct diagnostic ids heard as traffic. */
  lemma {:induction false} HeardAreFirst128(h: History, id: CanId)
    ensures id in Replay(h).heard <==> Recorded(h, id)
  {
    if h != [] {
      var front, e := h[..|h| - 1], h[|h| - 1];
      HeardAreFirst128(front, id);
      RecordedNext(h, id);
      HeardList(front);
      ElementsSize(Replay(front).heard);
      if e == HeardTraffic(id) && IsDiagnosticId(id) && id !in Replay(front).heard {
        if |Replay(front).heard| == HEARD_CAPACITY {
          SubsetSize(Elements(Replay(front).heard), DiagnosticTraffic(front));
        }
      }
    }
  }

  /** The recorded set only grows: no event takes an id out of it. */
  lemma {:induction false} RecordedForever(h: History, later: History, id: CanId)
    requires Recorded(h, id)
    ensures Recorded(h + later, id)
    decreases |later|
  {
    if later == [] {
      assert h + later == h;
    } else {
      RecordedForever(h, later[..|later| - 1], id);
      assert (h + later)[..|h + later| - 1] == h + later[..|later| - 1];
      RecordedNext(h + later, id);
    }
  }

  // ---------- Consecutive frames ----------

  lemma GovernsUnique(h: History, j: nat, k: nat, id: CanId, other: CanId)
    requires j < |h| && k < |h| && Governs(h, j, id) && Governs(h, k, other)
    ensures j == k && id == other
  {
  }

  /** The stored first frame is the governing one, with the tier it had when it was offered. */
  lemma {:induction false} StoredFirst(h: History, id: CanId)
    ensures var g := Replay(h);
      (g.haveFirst && g.firstId == id <==> exists k :: 0 <= k < |h| && Governs(h, k, id))
      && forall k :: 0 <= k < |h| && Governs(h, k, id) ==>
          g.firstTier == Classify(Replay(h[..k]), h[k].frame)
  {
    if h != [] {
      var front, e := h[..|h| - 1], h[|h| - 1];
      StoredFirst(front, id);
      forall k | 0 <= k < |front| ensures front[..k] == h[..k] && front[k] == h[k] {}
      if e.Offered? && PciOf(e.frame) == First {
        assert e.frame.id == id ==> Governs(h, |h| - 1, id);
      } else {
        forall k | 0 <= k < |front| ensures Governs(h, k, id) <==>
            Governs(front, k, id) && !(e.Offered? && PciOf(e.frame) == Single && e.frame.id == id) {
          GovernsNext(h, k, id);
        }
      }
    }
  }

  lemma GovernsNext(h: History, k: nat, id: CanId)
    requires k < |h| - 1
    requires !(h[|h| - 1].Offered? && PciOf(h[|h| - 1].frame) == First)
    ensures var e := h[|h| - 1];
      Governs(h, k, id) <==>
        (Governs(h[..|h| - 1], k, id)
         && !(e.Offered? && PciOf(e.frame) == Single && e.frame.id == id))
  {
    var front := h[..|h| - 1];
    assert forall j :: 0 <= j < |front| ==> front[j] == h[j];
  }

  lemma {:induction false} TierReplayed(h: History)
    ensures Replay(h).tier == TierNow(h)
  {
    if h != [] { TierReplayed(h[..|h| - 1]); }
  }

  /** Main result: the stored state gives every frame exactly the tier the history demands. */
  lemma {:induction false} VerdictFollowsHistory(h: History, f: CanFrame)
    ensures Classify(Replay(h), f) == RequiredTier(h, f)
    decreases |h|
  {
    hide Replay, ServiceTier, Recorded, IsDiagnosticId;
    HeardAreFirst128(h, f.id);
    if PciOf(f) == Consecutive {
      StoredFirst(h, f.id);
      forall k | 0 <= k < |h| && Governs(h, k, f.id)
        ensures Classify(Replay(h[..k]), h[k].frame) == RequiredTier(h[..k], h[k].frame) {
        VerdictFollowsHistory(h[..k], h[k].frame);
      }
    }
  }

  /** Main result, spelled out for consecutive frames: below WRITE one is admitted exactly when
      its id is diagnostic and not recorded and the last first frame offered (admitted or not, on
      any id) was on that id, with no single frame on that id since, and needed no more than the
      tier now in force. */
  lemma ConsecutiveVerdict(h: History, f: CanFrame)
    requires PciOf(f) == Consecutive && TierNow(h) != Write
    ensures Classify(Replay(h), f).AtMost(Replay(h).tier) <==>
      IsDiagnosticId(f.id) && !Recorded(h, f.id)
      && exists k :: 0 <= k < |h| && Governs(h, k, f.id)
          && RequiredTier(h[..k], h[k].frame).AtMost(TierNow(h))
  {
    TierReplayed(h);
    VerdictFollowsHistory(h, f);
    if exists k :: 0 <= k < |h| && Governs(h, k, f.id) {
      var k :| 0 <= k < |h| && Governs(h, k, f.id);
      forall j | 0 <= j < |h| && Governs(h, j, f.id) ensures j == k {
        GovernsUnique(h, j, k, f.id, f.id);
      }
    }
  }

  // ---------- The tiers, byte by byte ----------

  /** The service that a single or first frame asks for, read off its bytes, with the byte after it. */
  datatype Asked = NoService | Service(sid: byte, sub: Option<byte>)

  function AskedFor(data: seq<byte>): Asked {
    if |data| >= 2 && 1 <= data[0] <= 7 && data[0] < |data| then
      Service(data[1], if data[0] >= 2 then Some(data[2]) else None)
    else if |data| >= 3 && 0x10 <= data[0] <= 0x1F then
      Service(data[2], if |data| >= 4 then Some(data[3]) else None)
    else NoService
  }

  /** The services that only read: OBD 01 to 0A but 04 and 08, some of 12 to 24, tester present, the
      KWP2000 session services 81 to 83, and any diagnostic session but a programming one. */
  predicate OnlyReads(a: Asked) {
    a.Service?
    && ((1 <= a.sid <= 0x0A && a.sid != 4 && a.sid != 8)
        || a.sid == 0x12 || 0x17 <= a.sid <= 0x1A || 0x20 <= a.sid <= 0x24 || a.sid == 0x3E || 0x81 <= a.sid <= 0x83
        || (a.sid == 0x10 && a.sub != Some(0x02) && a.sub != Some(0x82) && a.sub != Some(0x85)))
  }

  /** The services that clear trouble codes. */
  predicate OnlyClears(a: Asked) { a.Service? && (a.sid == 0x04 || a.sid == 0x14) }

  /** What a tier below WRITE allows a single or first frame to ask for. */
  predicate AllowedAt(t: Tier, data: seq<byte>) {
    OnlyReads(AskedFor(data)) || (t == Clear && OnlyClears(AskedFor(data)))
  }

  lemma DiagnosticRanges(id: CanId)
    ensures IsDiagnosticId(id) <==> if id.ext then 0x18DA_0000 <= id.value <= 0x18DB_FFFF else 0x600 <= id.value <= 0x7FF
  {
  }

  lemma ServiceTierExactly(f: CanFrame, t: Tier)
    requires t != Write && f.data != [] && f.data[0] < 0x20
    ensures ServiceTier(f).AtMost(t) <==> AllowedAt(t, f.data)
  {
    if f.data[0] >= 0x10 {
      assert PciOf(f) == First;
      if |f.data| >= 3 { TableExactly(f.data[2], if |f.data| >= 4 then Some(f.data[3]) else None, t); }
    } else {
      assert PciOf(f) == Single;
      var n := SingleFrameLength(f);
      if n > 0 { TableExactly(f.data[1], if n >= 2 then Some(f.data[2]) else None, t); }
    }
  }

  lemma TableExactly(sid: byte, sub: Option<byte>, t: Tier)
    requires t != Write
    ensures TierOfService(sid, sub.Some?, sub.GetOr(0)).AtMost(t) <==>
      OnlyReads(Service(sid, sub)) || (t == Clear && OnlyClears(Service(sid, sub)))
  {
  }

  /** `f` is a consecutive frame of an answer or request that the tier allows: the first frame that governs
      it asked for no more. */
  ghost predicate Continues(h: History, f: CanFrame) {
    exists k :: 0 <= k < |h| && Governs(h, k, f.id) && Begins(h, k)
  }

  ghost predicate Begins(h: History, k: nat)
    requires k < |h|
  {
    h[k].Offered? && !Recorded(h[..k], h[k].frame.id) && AllowedAt(TierNow(h), h[k].frame.data)
  }

  /** Main result: what passes, byte by byte. At WRITE everything does; below it only frames on the
      diagnostic ids (600 to 7FF, 18DAxxxx and 18DBxxxx) that were not heard as traffic: flow control,
      single and first frames whose service byte the tier allows, and consecutive frames of such. */
  lemma PassesExactly(h: History, f: CanFrame)
    ensures Passes(h, f) <==>
      TierNow(h) == Write
      || ((if f.id.ext then 0x18DA_0000 <= f.id.value <= 0x18DB_FFFF else 0x600 <= f.id.value <= 0x7FF)
          && !Recorded(h, f.id) && f.data != []
          && (0x30 <= f.data[0] <= 0x3F || (f.data[0] < 0x20 && AllowedAt(TierNow(h), f.data))
              || (0x20 <= f.data[0] <= 0x2F && Continues(h, f))))
  {
    hide Recorded, TierNow, ServiceTier, AllowedAt, IsDiagnosticId;
    DiagnosticRanges(f.id);
    if TierNow(h) != Write {
      NoServiceByte(f);
      if f.data != [] && f.data[0] < 0x20 { ServiceTierExactly(f, TierNow(h)); }
      if PciOf(f) == Consecutive && IsDiagnosticId(f.id) { ContinuesExactly(h, f); }
    }
  }

  lemma NoServiceByte(f: CanFrame)
    ensures f.data == [] || f.data[0] >= 0x40 ==> ServiceTier(f) == Write
    ensures f.data != [] && 0x30 <= f.data[0] <= 0x3F ==> ServiceTier(f) == Read
    ensures PciOf(f) == Consecutive <==> f.data != [] && 0x20 <= f.data[0] <= 0x2F
  {
  }

  lemma ContinuesExactly(h: History, f: CanFrame)
    requires PciOf(f) == Consecutive && TierNow(h) != Write && IsDiagnosticId(f.id)
    ensures !Recorded(h, f.id) ==> (RequiredTier(h, f).AtMost(TierNow(h)) <==> Continues(h, f))
  {
    hide Recorded, TierNow, ServiceTier, AllowedAt, IsDiagnosticId;
    ConsecutiveVerdict(h, f);
    VerdictFollowsHistory(h, f);
    TierReplayed(h);
    forall k | 0 <= k < |h| && Governs(h, k, f.id)
      ensures RequiredTier(h[..k], h[k].frame).AtMost(TierNow(h)) <==> Begins(h, k) {
      FirstByte(h[k].frame);
      ServiceTierExactly(h[k].frame, TierNow(h));
    }
  }

  lemma FirstByte(f: CanFrame)
    requires PciOf(f) == First
    ensures f.data != [] && 0x10 <= f.data[0] < 0x20
  {
  }

  /** Offering a frame, admitted or refused, never changes the verdict on a frame with the same
      data bytes, on whatever id. */
  lemma OfferKeepsVerdict(h: History, offered: CanFrame, f: CanFrame)
    requires f.data == offered.data
    ensures RequiredTier(h + [Offered(offered)], f) == RequiredTier(h, f)
    ensures TierNow(h + [Offered(offered)]) == TierNow(h)
  {
    var h' := h + [Offered(offered)];
    VerdictFollowsHistory(h, f);
    VerdictFollowsHistory(h', f);
    assert h'[..|h'| - 1] == h;
  }

  /** Once an id is recorded, no frame on it passes below WRITE again. */
  lemma RecordedStaysRefused(h: History, later: History, f: CanFrame)
    requires Recorded(h, f.id)
    ensures RequiredTier(h + later, f) == Write
  {
    RecordedForever(h, later, f.id);
  }

  // ---------- The object ----------

  /** The ids heard as traffic, diagnostic or not, in order. */
  function HeardLog(h: History): seq<CanId> {
    if h == [] then []
    else HeardLog(h[..|h| - 1]) + (if h[|h| - 1].HeardTraffic? then [h[|h| - 1].id] else [])
  }

  /** The distinct diagnostic ids of a run of received ids. */
  function DiagnosticIds(ids: seq<CanId>): set<CanId> { set id | id in ids && IsDiagnosticId(id) }

  /** `id` is one of the first 128 distinct diagnostic ids of the run. */
  predicate AmongFirst128(ids: seq<CanId>, id: CanId) {
    exists i :: 0 <= i < |ids| && ids[i] == id && IsDiagnosticId(id) && id !in ids[..i]
      && |DiagnosticIds(ids[..i])| < 128
  }

  lemma AmongFirst128Next(ids: seq<CanId>, last: CanId, id: CanId)
    ensures AmongFirst128(ids + [last], id) <==>
      (AmongFirst128(ids, id)
       || (last == id && IsDiagnosticId(id) && id !in ids && |DiagnosticIds(ids)| < HEARD_CAPACITY))
  {
    hide IsDiagnosticId;
    var all := ids + [last];
    assert all[..|ids|] == ids;
    forall i | 0 <= i < |ids| ensures all[..i] == ids[..i] && all[i] == ids[i] {}
  }

  lemma {:induction false} TrafficIsLog(h: History)
    ensures DiagnosticTraffic(h) == DiagnosticIds(HeardLog(h))
  {
    hide IsDiagnosticId;
    if h != [] {
      TrafficIsLog(h[..|h| - 1]);
      DiagnosticTrafficNext(h);
    }
  }

  /** The recorded ids depend on nothing but the ids heard, in order. */
  lemma {:induction false} RecordedFollowsLog(h: History, id: CanId)
    ensures Recorded(h, id) <==> AmongFirst128(HeardLog(h), id)
  {
    hide IsDiagnosticId, AmongFirst128, Recorded, DiagnosticTraffic, DiagnosticIds, FirstHeard;
    if h == [] {
      NothingRecorded(id);
    } else {
      var front, e := h[..|h| - 1], h[|h| - 1];
      RecordedFollowsLog(front, id);
      RecordedNext(h, id);
      TrafficIsLog(front);
      FirstHeardInLog(h, id);
      if e.HeardTraffic? {
        AmongFirst128Next(HeardLog(front), e.id, id);
      } else {
        assert HeardLog(h) == HeardLog(front);
      }
    }
  }

  lemma NothingRecorded(id: CanId)
    ensures !Recorded([], id) && !AmongFirst128(HeardLog([]), id)
  {
  }

  lemma FirstHeardInLog(h: History, id: CanId)
    requires h != []
    ensures FirstHeard(h, |h| - 1, id) <==>
      h[|h| - 1] == HeardTraffic(id) && IsDiagnosticId(id) && id !in HeardLog(h[..|h| - 1])
  {
    hide IsDiagnosticId, DiagnosticTraffic;
    TrafficIsLog(h[..|h| - 1]);
  }

  /** What the guard gives out for a frame: the frame itself, or nothing to send. */
  datatype ClearedFrame = Refused | Cleared(frame: CanFrame)

  class Guard {
    var tier: Tier
    var firstId: CanId
    var firstTier: Tier
    var haveFirst: bool
    const heard: SeenIds
    ghost var history: History

    ghost function Repr(): set<object> { {this, heard, heard.ids} }

    ghost predicate Valid()
      reads this, heard, heard.ids
    {
      heard.Valid() && heard.ids.Length == HEARD_CAPACITY
      && GuardState(tier, haveFirst, firstId, firstTier, heard.Contents()) == Replay(history)
    }

    constructor ()
      ensures Valid() && fresh(Repr()) && history == []
    {
      tier, firstTier, haveFirst, firstId := Read, Write, false, RawId(false, 0);
      heard := new SeenIds(HEARD_CAPACITY);
      history := [];
    }

    method SetTier(t: Tier)
      requires Valid()
      modifies this
      ensures Valid() && history == old(history) + [TierSet(t)]
      ensures tier == t == TierNow(history)
    {
      hide Classify, IsDiagnosticId, SeenIds.Valid, SeenIds.Contents;
      tier := t;
      history := history + [TierSet(t)];
      assert history[..|history| - 1] == old(history);
    }

    method Hear(id: CanId)
      requires Valid()
      modifies Repr()
      ensures Valid() && history == old(history) + [HeardTraffic(id)]
      ensures TierNow(history) == TierNow(old(history))
    {
      if IsDiagnosticId(id) {
        var _ := heard.Add(id);
      }
      history := history + [HeardTraffic(id)];
      assert history[..|history| - 1] == old(history);
    }

    method ClassifyFrame(f: CanFrame) returns (t: Tier)
      requires Valid()
      ensures t == RequiredTier(history, f) == Classify(Replay(history), f)
    {
      VerdictFollowsHistory(history, f);
      var traffic := heard.Contains(f.id);
      if !IsDiagnosticId(f.id) || traffic { return Write; }
      if PciOf(f) == Consecutive {
        return if haveFirst && firstId == f.id then firstTier else Write;
      }
      return ServiceTier(f);
    }

    method Permits(f: CanFrame) returns (ok: bool)
      requires Valid()
      ensures ok <==> RequiredTier(history, f).AtMost(TierNow(history))
    {
      TierReplayed(history);
      var t := ClassifyFrame(f);
      ok := t.AtMost(tier);
    }

    method Admit(f: CanFrame) returns (out: ClearedFrame)
      requires Valid()
      modifies this
      ensures Valid() && history == old(history) + [Offered(f)]
      ensures out == if RequiredTier(old(history), f).AtMost(TierNow(old(history))) then Cleared(f) else Refused
      ensures RequiredTier(history, f) == RequiredTier(old(history), f) && TierNow(history) == TierNow(old(history))
    {
      TierReplayed(history);
      OfferKeepsVerdict(history, f, f);
      var t := ClassifyFrame(f);
      if PciOf(f) == First {
        haveFirst, firstId, firstTier := true, f.id, t;
      } else if PciOf(f) == Single && haveFirst && firstId == f.id {
        haveFirst := false;
      }
      out := if t.AtMost(tier) then Cleared(f) else Refused;
      history := history + [Offered(f)];
      assert history[..|history| - 1] == old(history);
    }
  }
}
