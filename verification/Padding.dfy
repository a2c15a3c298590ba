/** The two countdowns that run beside each other while a segmented answer arrives: the formatter
    counts payload bytes, the adapter counts frames. Here they are shown to agree, and the bytes
    shown per responder to be exactly its payload (lib/elm/src/text.cpp, lib/elm/src/bus.cpp). */
module Padding {
  import opened CanTypes
  import opened IsoTp
  import opened Text
  import CanScan

  // ---------- The countdowns agree ----------

  function FramesFor(bytes: nat): nat { (bytes + 6) / 7 }

  /** Same responders in the same slots; frames owed is bytes left, in sevens, rounded up. */
  predicate Agree(owed: Table, left: Table) {
    |owed| == |left| <= SLOTS
    && forall i :: 0 <= i < |owed| ==> owed[i].id == left[i].id && owed[i].left == FramesFor(left[i].left)
  }

  /** `converse` counts a frame: a first frame it answered, or a consecutive one. */
  function Count(owed: Table, f: CanFrame): (r: Table)
    requires |owed| <= SLOTS
    ensures |r| <= SLOTS
  {
    match PciOf(f)
    case First => Expect(owed, f)
    case Consecutive => Received(owed, f.id)
    case _ => owed
  }

  function CountAll(fs: seq<CanFrame>): (r: Table)
    ensures |r| <= SLOTS
  {
    if fs == [] then [] else Count(CountAll(fs[..|fs| - 1]), fs[|fs| - 1])
  }

  function ShowAll(fs: seq<CanFrame>): (r: Table)
    ensures |r| <= SLOTS
  {
    if fs == [] then []
    else
      ShownAtMost7(ShowAll(fs[..|fs| - 1]), fs[|fs| - 1]);
      ShowPayload(ShowAll(fs[..|fs| - 1]), fs[|fs| - 1]).table
  }

  predicate FullFrames(fs: seq<CanFrame>) {
    forall i :: 0 <= i < |fs| ==> |fs[i].data| == 8
  }

  lemma FindAgrees(owed: Table, left: Table, id: CanId)
    requires Agree(owed, left)
    ensures Find(owed, id) == Find(left, id)
  {
    var k, m := Find(owed, id), Find(left, id);
    if k.Some? { assert left[k.value].id == id; }
    if m.Some? { assert owed[m.value].id == id; }
  }

  lemma FirstAgrees(owed: Table, left: Table, f: CanFrame)
    requires Agree(owed, left) && |f.data| == 8 && PciOf(f) == First
    ensures Agree(Count(owed, f), ShowPayload(left, f).table)
  {
    FindAgrees(owed, left, f.id);
    var total := FirstFrameLength(f);
    assert FramesOwed(f) == FramesFor(if total > 6 then total - 6 else 0);
  }

  lemma ConsecutiveAgrees(owed: Table, left: Table, f: CanFrame)
    requires Agree(owed, left) && |f.data| == 8 && PciOf(f) == Consecutive
    ensures Agree(Count(owed, f), ShowPayload(left, f).table)
  {
    FindAgrees(owed, left, f.id);
    var k := Find(left, f.id);
    if k.Some? {
      var n := left[k.value].left;
      assert FramesFor(if n < 7 then 0 else n - 7) == if FramesFor(n) > 0 then FramesFor(n) - 1 else 0;
    }
  }

  /** Main result: after any 8-byte frames from any number of responders, with every first frame
      answered, each counter of owed frames is its responder's remaining bytes in frames. Both
      tables even give up the same slot when a fifth responder appears. */
  lemma {:induction false} CountdownsAgree(fs: seq<CanFrame>)
    requires FullFrames(fs)
    ensures Agree(CountAll(fs), ShowAll(fs))
    decreases |fs|
  {
    if fs != [] {
      var front, f := fs[..|fs| - 1], fs[|fs| - 1];
      CountdownsAgree(front);
      hide Count, ShowPayload, Agree;
      if PciOf(f) == First {
        FirstAgrees(CountAll(front), ShowAll(front), f);
      } else if PciOf(f) == Consecutive {
        ConsecutiveAgrees(CountAll(front), ShowAll(front), f);
      } else {
        OthersKeep(CountAll(front), ShowAll(front), f);
      }
    }
  }

  lemma OthersKeep(owed: Table, left: Table, f: CanFrame)
    requires |owed| <= SLOTS && |left| <= SLOTS && PciOf(f) != First && PciOf(f) != Consecutive
    ensures Count(owed, f) == owed && ShowPayload(left, f).table == left
  {
  }

  // ---------- One responder alone ----------

  datatype Solo = Solo(left: Option<nat>, shown: seq<byte>)

  /** What the formatter shows of one responder's frame, given that responder's countdown. */
  function SoloShow(left: Option<nat>, f: CanFrame): Solo {
    match PciOf(f)
    case Single => Solo(left, f.data[1..1 + SingleFrameLength(f)])
    case First =>
      if |f.data| < 2 then Solo(left, [])
      else
        var total, inFirst := FirstFrameLength(f), |f.data| - 2;
        var n := if inFirst > total then total else inFirst;
        Solo(Some(total - n), f.data[2..2 + n])
    case Consecutive =>
      var n := |f.data| - 1;
      var m := if left.Some? && left.value < n then left.value else n;
      Solo(if left.Some? then Some(left.value - m) else None, f.data[1..1 + m])
    case _ => Solo(left, [])
  }

  function SoloAll(left: Option<nat>, fs: seq<CanFrame>): Solo {
    if fs == [] then Solo(left, [])
    else
      var before := SoloAll(left, fs[..|fs| - 1]);
      var now := SoloShow(before.left, fs[|fs| - 1]);
      Solo(now.left, before.shown + now.shown)
  }

  lemma {:induction false} SoloConcat(left: Option<nat>, xs: seq<CanFrame>, ys: seq<CanFrame>)
    ensures var a := SoloAll(left, xs); var b := SoloAll(a.left, ys);
      SoloAll(left, xs + ys) == Solo(b.left, a.shown + b.shown)
    decreases |ys|
  {
    hide SoloShow;
    if ys == [] {
      assert xs + ys == xs;
    } else {
      SoloConcat(left, xs, ys[..|ys| - 1]);
      assert (xs + ys)[..|xs + ys| - 1] == xs + ys[..|ys| - 1];
    }
  }

  function OnBus(id: CanId, segments: seq<seq<byte>>): (r: seq<CanFrame>)
    requires forall i :: 0 <= i < |segments| ==> |segments[i]| == 8
    ensures |r| == |segments| && FullFrames(r)
    ensures forall i :: 0 <= i < |r| ==> r[i] == Frame(id, segments[i])
  {
    seq(|segments|, i requires 0 <= i < |segments| => Frame(id, segments[i]))
  }

  /** The k-th frame of a long answer, shown with the countdown its predecessors left. */
  lemma SegmentShown(id: CanId, p: seq<byte>, k: nat)
    requires 8 <= |p| <= 4095 && 1 <= k < FrameCount(|p|)
    ensures SoloShow(Some(|p| - Carried(|p|, k)), Frame(id, SegmentAt(p, k)))
      == Solo(Some(|p| - Carried(|p|, k + 1)), ChunkAt(p, k))
  {
    var f: CanFrame := Frame(id, SegmentAt(p, k));
    var chunk := ChunkAt(p, k);
    assert PciOf(f) == Consecutive;
    assert f.data[..1 + |chunk|] == [0x20 + k % 16] + chunk;
    assert f.data[1..1 + |chunk|] == chunk;
  }

  lemma FirstShown(left: Option<nat>, id: CanId, p: seq<byte>)
    requires 8 <= |p| <= 4095
    ensures SoloShow(left, Frame(id, SegmentAt(p, 0))) == Solo(Some(|p| - 6), p[..6])
  {
    assert SegmentAt(p, 0)[2..8] == p[..6];
  }

  lemma SingleShown(left: Option<nat>, id: CanId, p: seq<byte>)
    requires 1 <= |p| <= 7
    ensures SoloShow(left, Frame(id, SegmentAt(p, 0))) == Solo(left, p)
  {
    var f: CanFrame := Frame(id, SegmentAt(p, 0));
    assert f.data[..1 + |p|] == [|p|] + p;
    assert SingleFrameLength(f) == |p|;
    assert f.data[1..1 + |p|] == p;
  }

  lemma {:induction false} LongAnswerShown(left: Option<nat>, id: CanId, p: seq<byte>, k: nat)
    requires 8 <= |p| <= 4095 && 1 <= k <= FrameCount(|p|)
    ensures SoloAll(left, OnBus(id, Segment(p)[..k])) == Solo(Some(|p| - Carried(|p|, k)), p[..Carried(|p|, k)])
    decreases k
  {
    hide SoloShow, SegmentAt, FrameCount;
    var fs := OnBus(id, Segment(p)[..k]);
    assert fs[k - 1] == Frame(id, SegmentAt(p, k - 1));
    if k == 1 {
      assert fs[..0] == [];
      FirstShown(left, id, p);
    } else {
      LongAnswerShown(left, id, p, k - 1);
      assert fs[..k - 1] == OnBus(id, Segment(p)[..k - 1]);
      SegmentShown(id, p, k - 1);
    }
  }

  /** All answers of one responder are shown byte for byte, without padding. */
  lemma {:induction false} SoloShowsAnswers(left: Option<nat>, id: CanId, answers: seq<seq<byte>>)
    requires forall i :: 0 <= i < |answers| ==> CanScan.Sendable(answers[i])
    ensures SoloAll(left, OnBus(id, CanScan.SegmentAll(answers))).shown == Flatten(answers)
    decreases |answers|
  {
    hide SoloShow, SoloAll, SegmentAt;
    if answers == [] {
      assert OnBus(id, CanScan.SegmentAll(answers)) == [];
      SoloNothing(left);
    } else {
      var front, p := answers[..|answers| - 1], answers[|answers| - 1];
      SoloShowsAnswers(left, id, front);
      var a, b := OnBus(id, CanScan.SegmentAll(front)), OnBus(id, Segment(p));
      SoloConcat(left, a, b);
      assert OnBus(id, CanScan.SegmentAll(answers)) == a + b;
      SoloAnswer(SoloAll(left, a).left, id, p);
    }
  }

  lemma SoloNothing(left: Option<nat>)
    ensures SoloAll(left, []) == Solo(left, [])
  {
  }

  lemma SoloAnswer(left: Option<nat>, id: CanId, p: seq<byte>)
    requires CanScan.Sendable(p)
    ensures SoloAll(left, OnBus(id, Segment(p))).shown == p
  {
    hide SoloShow, SegmentAt;
    var n := FrameCount(|p|);
    assert Segment(p)[..n] == Segment(p);
    if |p| <= 7 {
      var fs := OnBus(id, Segment(p));
      assert fs[..0] == [];
      SingleShown(left, id, p);
    } else {
      LongAnswerShown(left, id, p, n);
      AllFramesCarryAll(|p|);
    }
  }

  // ---------- Several responders, at most four with first frames ----------

  /** The bytes shown for responder `id` when all of `fs` are formatted in order. */
  function ShownFor(fs: seq<CanFrame>, id: CanId): seq<byte> {
    if fs == [] then []
    else
      var front, f := fs[..|fs| - 1], fs[|fs| - 1];
      ShownFor(front, id) + (if f.id == id then ShowPayload(ShowAll(front), f).bytes else [])
  }

  function FramesOf(fs: seq<CanFrame>, id: CanId): seq<CanFrame> {
    if fs == [] then []
    else FramesOf(fs[..|fs| - 1], id) + (if fs[|fs| - 1].id == id then [fs[|fs| - 1]] else [])
  }

  /** The responders that sent a multi-frame answer. */
  function MultiFrame(fs: seq<CanFrame>): set<CanId> {
    set i | 0 <= i < |fs| && PciOf(fs[i]) == First && |fs[i].data| >= 2 :: fs[i].id
  }

  predicate Distinct(t: Table) {
    forall i, j :: 0 <= i < j < |t| ==> t[i].id != t[j].id
  }

  function Ids(t: Table): set<CanId> { set i | 0 <= i < |t| :: t[i].id }

  lemma {:induction false} IdsSize(t: Table)
    requires Distinct(t)
    ensures |Ids(t)| == |t|
  {
    if t != [] {
      IdsSize(t[..|t| - 1]);
      assert Ids(t) == Ids(t[..|t| - 1]) + {t[|t| - 1].id};
    }
  }

  /** A slot is free, or already there, for every responder of a run with at most four. */
  lemma PutKeepsOthers(t: Table, id: CanId, n: nat)
    requires Distinct(t) && |t| <= SLOTS
    requires id in Ids(t) || |t| < SLOTS
    ensures var t' := Put(t, id, n);
      Distinct(t') && Ids(t') == Ids(t) + {id} && Left(t', id) == Some(n)
      && forall other :: other != id ==> Left(t', other) == Left(t, other)
  {
    var t' := Put(t, id, n);
    var k := Find(t, id);
    forall x | x in Ids(t) + {id} ensures x in Ids(t') {
      if x in Ids(t) {
        var i :| 0 <= i < |t| && t[i].id == x;
        assert t'[i].id == x;
      } else {
        assert t'[|t|].id == id;
      }
    }
    forall other | other != id ensures Left(t', other) == Left(t, other) {
      LeftByIndex(t, t', other);
    }
  }

  lemma LeftByIndex(t: Table, t': Table, id: CanId)
    requires |t| <= |t'| <= |t| + 1 && Distinct(t) && Distinct(t')
    requires forall i :: 0 <= i < |t| ==> t[i] == t'[i] || (t[i].id != id && t'[i].id != id)
    requires |t'| == |t| + 1 ==> t'[|t|].id != id
    ensures Left(t', id) == Left(t, id)
  {
    var k, m := Find(t, id), Find(t', id);
    if k.Some? { assert t'[k.value].id == id; }
  }

  lemma MultiFrameNext(fs: seq<CanFrame>)
    requires fs != []
    ensures var f := fs[|fs| - 1];
      MultiFrame(fs) == MultiFrame(fs[..|fs| - 1]) + (if PciOf(f) == First && |f.data| >= 2 then {f.id} else {})
  {
    var front := fs[..|fs| - 1];
    forall x | x in MultiFrame(front) ensures x in MultiFrame(fs) {
      var i :| 0 <= i < |front| && PciOf(front[i]) == First && |front[i].data| >= 2 && front[i].id == x;
      assert fs[i] == front[i];
    }
    forall x | x in MultiFrame(fs) ensures x in MultiFrame(front) || (PciOf(fs[|fs| - 1]) == First && x == fs[|fs| - 1].id) {
      var i :| 0 <= i < |fs| && PciOf(fs[i]) == First && |fs[i].data| >= 2 && fs[i].id == x;
      if i < |front| { assert front[i] == fs[i]; }
    }
  }

  /** With at most four multi-frame responders, each is treated as if it were alone. */
  lemma {:induction false} EachAsIfAlone(fs: seq<CanFrame>, id: CanId)
    requires |MultiFrame(fs)| <= SLOTS
    ensures var t := ShowAll(fs);
      Distinct(t) && Ids(t) == MultiFrame(fs)
      && SoloAll(None, FramesOf(fs, id)) == Solo(Left(t, id), ShownFor(fs, id))
    decreases |fs|
  {
    hide SoloAll, SoloShow, ShowPayload, Distinct, Ids, MultiFrame, Left;
    if fs == [] {
      NoFrames(id);
    } else {
      var front, f := fs[..|fs| - 1], fs[|fs| - 1];
      MultiFrameNext(fs);
      SubsetSize(MultiFrame(front), MultiFrame(fs));
      EachAsIfAlone(front, id);
      StepAsIfAlone(ShowAll(front), f, id, MultiFrame(fs));
      SoloNext(None, FramesOf(front, id), f);
      assert FramesOf(front, id) + [] == FramesOf(front, id);
    }
  }

  lemma NoFrames(id: CanId)
    ensures Distinct([]) && Ids([]) == MultiFrame([]) == {} && SoloAll(None, []) == Solo(Left([], id), [])
  {
  }

  lemma SoloNext(left: Option<nat>, fs: seq<CanFrame>, f: CanFrame)
    ensures var before := SoloAll(left, fs); var now := SoloShow(before.left, f);
      SoloAll(left, fs + [f]) == Solo(now.left, before.shown + now.shown)
  {
    assert (fs + [f])[..|fs|] == fs;
  }

  lemma StepAsIfAlone(t: Table, f: CanFrame, id: CanId, responders: set<CanId>)
    requires |t| <= SLOTS && Distinct(t) && |responders| <= SLOTS
    requires responders == Ids(t) + (if PciOf(f) == First && |f.data| >= 2 then {f.id} else {})
    ensures var s := ShowPayload(t, f);
      Distinct(s.table) && Ids(s.table) == responders
      && (if f.id == id then SoloShow(Left(t, id), f) == Solo(Left(s.table, id), s.bytes)
          else Left(s.table, id) == Left(t, id))
  {
    IdsSize(t);
    if PciOf(f) == First && |f.data| >= 2 {
      if f.id !in Ids(t) { assert |responders| == |t| + 1; }
      FirstAsIfAlone(t, f, id);
    } else if PciOf(f) == Consecutive {
      ConsecutiveAsIfAlone(t, f, id);
    }
  }

  lemma FirstAsIfAlone(t: Table, f: CanFrame, id: CanId)
    requires |t| <= SLOTS && Distinct(t) && PciOf(f) == First && |f.data| >= 2
    requires f.id in Ids(t) || |t| < SLOTS
    ensures var s := ShowPayload(t, f);
      Distinct(s.table) && Ids(s.table) == Ids(t) + {f.id}
      && (if f.id == id then SoloShow(Left(t, id), f) == Solo(Left(s.table, id), s.bytes)
          else Left(s.table, id) == Left(t, id))
  {
    hide Find, Put, Left, Ids, Distinct;
    var total, inFirst := FirstFrameLength(f), |f.data| - 2;
    PutKeepsOthers(t, f.id, total - (if inFirst > total then total else inFirst));
  }

  lemma ConsecutiveAsIfAlone(t: Table, f: CanFrame, id: CanId)
    requires |t| <= SLOTS && Distinct(t) && PciOf(f) == Consecutive
    ensures var s := ShowPayload(t, f);
      Distinct(s.table) && Ids(s.table) == Ids(t)
      && (if f.id == id then SoloShow(Left(t, id), f) == Solo(Left(s.table, id), s.bytes)
          else Left(s.table, id) == Left(t, id))
  {
    hide Find, Ids, Distinct;
    var k := Find(t, f.id);
    if k.Some? {
      KnownId(t, k.value);
      var n := |f.data| - 1;
      var m := if t[k.value].left < n then t[k.value].left else n;
      PutKeepsOthers(t, f.id, t[k.value].left - m);
      assert Ids(t) + {f.id} == Ids(t);
    }
  }

  lemma KnownId(t: Table, k: nat)
    requires k < |t|
    ensures t[k].id in Ids(t)
  {
  }

  /** Main result: with at most four multi-frame responders, however their frames interleave, the
      bytes shown for each with headers off are exactly its answers, in order, without padding. */
  lemma ShownIsPayload(fs: seq<CanFrame>, id: CanId, answers: seq<seq<byte>>)
    requires |MultiFrame(fs)| <= SLOTS
    requires forall i :: 0 <= i < |answers| ==> CanScan.Sendable(answers[i])
    requires FramesOf(fs, id) == OnBus(id, CanScan.SegmentAll(answers))
    ensures ShownFor(fs, id) == Flatten(answers)
  {
    hide SoloAll, ShownFor, ShowAll;
    EachAsIfAlone(fs, id);
    SoloShowsAnswers(None, id, answers);
  }

  // ---------- Any number of responders ----------

  /** Who has one of the four slots: the responders of first frames, in order; when all are taken, the
      newest of them takes the last. */
  function Holders(fs: seq<CanFrame>): (r: seq<CanId>)
    ensures |r| <= SLOTS
  {
    if fs == [] then []
    else
      var front, f := Holders(fs[..|fs| - 1]), fs[|fs| - 1];
      if PciOf(f) != First || |f.data| < 2 || f.id in front then front
      else if |front| < SLOTS then front + [f.id]
      else front[SLOTS - 1 := f.id]
  }

  /** The k-th frame is a consecutive one of `id`, with fewer than seven bytes of its answer left. */
  predicate NeedsTrim(fs: seq<CanFrame>, id: CanId, k: nat)
    requires k < |fs|
  {
    fs[k].id == id && PciOf(fs[k]) == Consecutive
    && var left := SoloAll(None, FramesOf(fs[..k], id)).left; left.Some? && left.value < 7
  }

  /** Every frame that carries padding comes while its responder has a slot. */
  predicate TrimsInTime(fs: seq<CanFrame>, id: CanId) {
    forall k :: 0 <= k < |fs| && NeedsTrim(fs, id, k) ==> id in Holders(fs[..k])
  }

  predicate HeldBy(t: Table, holders: seq<CanId>) {
    |t| == |holders| && (forall i :: 0 <= i < |t| ==> t[i].id == holders[i]) && Distinct(t)
  }

  lemma PutHeld(t: Table, holders: seq<CanId>, id: CanId, n: nat)
    requires HeldBy(t, holders) && |t| <= SLOTS
    ensures var after := if id in holders then holders
                         else if |holders| < SLOTS then holders + [id] else holders[SLOTS - 1 := id];
      HeldBy(Put(t, id, n), after) && Left(Put(t, id, n), id) == Some(n)
      && forall other :: other != id && other in after ==> Left(Put(t, id, n), other) == Left(t, other)
  {
    var t', k := Put(t, id, n), Find(t, id);
    var after := if id in holders then holders
                 else if |holders| < SLOTS then holders + [id] else holders[SLOTS - 1 := id];
    if id in holders {
      var i :| 0 <= i < |holders| && holders[i] == id;
      assert t[i].id == id;
    }
    assert |t'| == |after| && forall i :: 0 <= i < |after| ==> t'[i].id == after[i];
    assert Distinct(t');
    LeftAt(t', if k.Some? then k.value else if |t| < SLOTS then |t| else SLOTS - 1);
    forall other | other != id && other in after ensures Left(t', other) == Left(t, other) {
      var i :| 0 <= i < |after| && after[i] == other;
      assert t'[i] == t[i];
      LeftAt(t', i);
      LeftAt(t, i);
    }
  }

  lemma HeldIsLeft(t: Table, holders: seq<CanId>, id: CanId)
    requires HeldBy(t, holders)
    ensures id in holders <==> Left(t, id).Some?
  {
    if id in holders {
      var i :| 0 <= i < |holders| && holders[i] == id;
      assert t[i].id == id;
    }
  }

  /** After any frames: a responder with a slot is treated as if it were alone; and what is shown of it is
      that, or, from the first frame with padding that came without a slot, more. */
  predicate AsIfAlone(fs: seq<CanFrame>, id: CanId) {
    var t, solo, shown := ShowAll(fs), SoloAll(None, FramesOf(fs, id)), ShownFor(fs, id);
    HeldBy(t, Holders(fs)) && (Left(t, id).Some? ==> Left(t, id) == solo.left)
    && if TrimsInTime(fs, id) then shown == solo.shown else |shown| > |solo.shown|
  }

  lemma {:induction false} SlotsDecide(fs: seq<CanFrame>, id: CanId)
    requires FullFrames(fs)
    ensures AsIfAlone(fs, id)
    decreases |fs|
  {
    hide SoloAll, SoloShow, ShowPayload, Distinct, Left, HeldBy, NeedsTrim;
    if fs == [] {
      NoFrames(id);
      NobodyHolds();
    } else {
      var front, f := fs[..|fs| - 1], fs[|fs| - 1];
      SlotsDecide(front, id);
      SlotStep(ShowAll(front), Holders(front), f, id, SoloAll(None, FramesOf(front, id)).left);
      SoloNext(None, FramesOf(front, id), f);
      assert FramesOf(front, id) + [] == FramesOf(front, id);
      TrimsNext(front, f, id);
      assert fs == front + [f];
    }
  }

  lemma NobodyHolds()
    ensures HeldBy([], []) && forall id :: Left([], id).None?
  {
  }

  lemma TrimsNext(fs: seq<CanFrame>, f: CanFrame, id: CanId)
    ensures TrimsInTime(fs + [f], id) <==> TrimsInTime(fs, id) && (NeedsTrim(fs + [f], id, |fs|) ==> id in Holders(fs))
    ensures NeedsTrim(fs + [f], id, |fs|) <==>
      f.id == id && PciOf(f) == Consecutive
      && var left := SoloAll(None, FramesOf(fs, id)).left; left.Some? && left.value < 7
  {
    hide SoloAll, Holders, FramesOf;
    var all := fs + [f];
    assert all[..|fs|] == fs;
    forall k | 0 <= k < |fs| ensures all[..k] == fs[..k] && (NeedsTrim(all, id, k) <==> NeedsTrim(fs, id, k)) {
      assert all[..k] == fs[..k];
    }
  }

  /** One frame: its responder's countdown is the lone one's, unless it has no slot; then a consecutive frame
      shows seven bytes. */
  lemma SlotStep(t: Table, holders: seq<CanId>, f: CanFrame, id: CanId, left: Option<nat>)
    requires |t| <= SLOTS && HeldBy(t, holders) && |f.data| == 8 && (Left(t, id).Some? ==> Left(t, id) == left)
    ensures var s, solo := ShowPayload(t, f), SoloShow(left, f);
      var after := if PciOf(f) != First || f.id in holders then holders
                   else if |holders| < SLOTS then holders + [f.id] else holders[SLOTS - 1 := f.id];
      HeldBy(s.table, after)
      && (if f.id == id then
            (Left(s.table, id).Some? ==> Left(s.table, id) == solo.left)
            && (if PciOf(f) == Consecutive && left.Some? && left.value < 7 && id !in holders then |s.bytes| > |solo.shown|
                else s.bytes == solo.shown)
          else Left(s.table, id).Some? ==> Left(s.table, id) == left)
  {
    HeldIsLeft(t, holders, id);
    HeldIsLeft(t, holders, f.id);
    if PciOf(f) == First {
      FirstStep(t, holders, f, id);
    } else if PciOf(f) == Consecutive {
      ConsecutiveStep(t, holders, f, id);
    }
  }

  lemma FirstStep(t: Table, holders: seq<CanId>, f: CanFrame, id: CanId)
    requires |t| <= SLOTS && HeldBy(t, holders) && |f.data| == 8 && PciOf(f) == First
    ensures var s, total := ShowPayload(t, f), FirstFrameLength(f);
      var after := if f.id in holders then holders
                   else if |holders| < SLOTS then holders + [f.id] else holders[SLOTS - 1 := f.id];
      HeldBy(s.table, after) && Left(s.table, f.id) == Some(total - if 6 > total then total else 6)
      && (id != f.id && Left(s.table, id).Some? ==> Left(s.table, id) == Left(t, id))
  {
    hide Left, Put, HeldBy;
    var total := FirstFrameLength(f);
    var n := total - if 6 > total then total else 6;
    PutHeld(t, holders, f.id, n);
    var after := if f.id in holders then holders
                 else if |holders| < SLOTS then holders + [f.id] else holders[SLOTS - 1 := f.id];
    HeldIsLeft(Put(t, f.id, n), after, id);
  }

  lemma ConsecutiveStep(t: Table, holders: seq<CanId>, f: CanFrame, id: CanId)
    requires |t| <= SLOTS && HeldBy(t, holders) && |f.data| == 8 && PciOf(f) == Consecutive
    ensures var s, before := ShowPayload(t, f), Left(t, f.id);
      HeldBy(s.table, holders)
      && (if before.None? then s == Shown(t, f.data[1..])
          else
            var m := if before.value < 7 then before.value else 7;
            s.bytes == f.data[1..1 + m] && Left(s.table, f.id) == Some(before.value - m))
      && (id != f.id ==> Left(s.table, id) == Left(t, id))
  {
    var k := Find(t, f.id);
    if k.Some? {
      assert t[k.value].id == f.id;
      var left := t[k.value].left;
      var t' := ShowPayload(t, f).table;
      assert forall i :: 0 <= i < |t| ==> t'[i].id == t[i].id;
      SameSlot(t, t', f.id, k.value);
      if id != f.id { LeftByIndex(t, t', id); }
    }
  }

  lemma SameSlot(t: Table, t': Table, id: CanId, k: nat)
    requires |t| == |t'| && k < |t| && t[k].id == id && Distinct(t) && forall i :: 0 <= i < |t| ==> t'[i].id == t[i].id
    ensures Distinct(t') && Left(t', id) == Some(t'[k].left)
  {
    var m := Find(t', id);
    assert m.Some? && t'[m.value].id == id;
  }

  /** Main result: whatever the number of responders, what is shown of one is exactly its answers if and
      only if every frame of it with padding came while it had one of the four slots. */
  lemma ShownExactlyWhen(fs: seq<CanFrame>, id: CanId, answers: seq<seq<byte>>)
    requires FullFrames(fs) && forall i :: 0 <= i < |answers| ==> CanScan.Sendable(answers[i])
    requires FramesOf(fs, id) == OnBus(id, CanScan.SegmentAll(answers))
    ensures ShownFor(fs, id) == Flatten(answers) <==> TrimsInTime(fs, id)
  {
    hide SoloAll, ShownFor, ShowAll, Holders, TrimsInTime, HeldBy;
    SlotsDecide(fs, id);
    SoloShowsAnswers(None, id, answers);
  }

  lemma HeldNext(fs: seq<CanFrame>, f: CanFrame, id: CanId)
    ensures FramesOf(fs + [f], id) == FramesOf(fs, id) + (if f.id == id then [f] else [])
    ensures PciOf(f) == First && |f.data| == 8 && f.id !in Holders(fs) ==>
      Holders(fs + [f])
        == if |Holders(fs)| < SLOTS then Holders(fs) + [f.id] else Holders(fs)[SLOTS - 1 := f.id]
  {
    assert (fs + [f])[..|fs|] == fs;
  }

  /** The n-th of some responders that each begin an answer. */
  function Begun(p: seq<byte>, n: nat): (fs: seq<CanFrame>)
    requires |p| == 8 && n <= 5
    ensures |fs| == n && FullFrames(fs)
  {
    if n == 0 then [] else Begun(p, n - 1) + [Frame(Std11(0x7E8 + n - 1), SegmentAt(p, 0))]
  }

  lemma BegunHeld(p: seq<byte>)
    requires |p| == 8
    ensures Holders(Begun(p, 5)) == [Std11(0x7E8), Std11(0x7E9), Std11(0x7EA), Std11(0x7EC)]
    ensures FramesOf(Begun(p, 5), Std11(0x7EB)) == [Frame(Std11(0x7EB), SegmentAt(p, 0))]
  {
    hide Holders, FramesOf, Begun;
    FourHeld(p);
    var h := Holders(Begun(p, 4));
    assert |h| == SLOTS && h[SLOTS - 1 := Std11(0x7EC)] == [Std11(0x7E8), Std11(0x7E9), Std11(0x7EA), Std11(0x7EC)];
    OneBegins(p, 5);
  }

  lemma FourHeld(p: seq<byte>)
    requires |p| == 8
    ensures Holders(Begun(p, 4)) == [Std11(0x7E8), Std11(0x7E9), Std11(0x7EA), Std11(0x7EB)]
    ensures FramesOf(Begun(p, 4), Std11(0x7EB)) == [Frame(Std11(0x7EB), SegmentAt(p, 0))]
  {
    hide Holders, FramesOf, Begun;
    TwoHeld(p);
    OneBegins(p, 3);
    assert Holders(Begun(p, 3)) == [Std11(0x7E8), Std11(0x7E9), Std11(0x7EA)];
    OneBegins(p, 4);
  }

  lemma TwoHeld(p: seq<byte>)
    requires |p| == 8
    ensures Holders(Begun(p, 2)) == [Std11(0x7E8), Std11(0x7E9)] && FramesOf(Begun(p, 2), Std11(0x7EB)) == []
  {
    hide Holders, FramesOf, Begun;
    NobodyBegun(Std11(0x7EB));
    OneBegins(p, 1);
    OneBegins(p, 2);
  }

  lemma OneBegins(p: seq<byte>, n: nat)
    requires |p| == 8 && 1 <= n <= 5
    ensures Begun(p, 0) == []
    ensures var h, id := Holders(Begun(p, n - 1)), Std11(0x7E8 + n - 1);
      Holders(Begun(p, n)) == if |h| < SLOTS then h + [id] else h[SLOTS - 1 := id]
    ensures FramesOf(Begun(p, n), Std11(0x7EB))
      == FramesOf(Begun(p, n - 1), Std11(0x7EB)) + if n == 4 then [Frame(Std11(0x7EB), SegmentAt(p, 0))] else []
  {
    hide Holders, FramesOf;
    var f: CanFrame := Frame(Std11(0x7E8 + n - 1), SegmentAt(p, 0));
    BegunBelow(p, n - 1);
    HeldNext(Begun(p, n - 1), f, Std11(0x7EB));
  }

  lemma BeginsAnswer(p: seq<byte>, id: CanId)
    requires |p| == 8
    ensures PciOf(Frame(id, SegmentAt(p, 0))) == First
  {
  }

  lemma {:induction false} BegunBelow(p: seq<byte>, n: nat)
    requires |p| == 8 && n <= 5
    ensures forall id :: id in Holders(Begun(p, n)) ==> id.value < 0x7E8 + n
  {
    hide Holders, SegmentAt, FramesOf;
    if n == 0 {
      NobodyBegun(Std11(0x7EB));
    } else {
      BegunBelow(p, n - 1);
      var f: CanFrame := Frame(Std11(0x7E8 + n - 1), SegmentAt(p, 0));
      BeginsAnswer(p, f.id);
      HeldNext(Begun(p, n - 1), f, Std11(0x7EB));
      var h := Holders(Begun(p, n - 1));
      assert f.id !in h;
      assert forall id :: id in Holders(Begun(p, n)) ==> id in h || id == f.id;
    }
  }

  lemma NobodyBegun(id: CanId)
    ensures Holders([]) == [] && FramesOf([], id) == []
  {
  }

  /** Five responders begin an answer of eight bytes; then the fourth, whose slot the fifth has taken,
      finishes: its last two bytes are shown with the padding after them. */
  lemma FifthTakesASlot(p: seq<byte>)
    requires |p| == 8
    ensures var d := Std11(0x7EB); var fs := Begun(p, 5) + [Frame(d, SegmentAt(p, 1))];
      FramesOf(fs, d) == OnBus(d, CanScan.SegmentAll([p])) && !TrimsInTime(fs, d) && ShownFor(fs, d) != p
  {
    hide SegmentAt, ShownFor, Holders, FramesOf, Begun, TrimsInTime, OnBus, CanScan.SegmentAll, Flatten, SoloAll, NeedsTrim;
    var d := Std11(0x7EB);
    var last: CanFrame := Frame(d, SegmentAt(p, 1));
    BegunHeld(p);
    HeldNext(Begun(p, 5), last, d);
    TrimsNext(Begun(p, 5), last, d);
    TwoFrames(d, p);
    ShownExactlyWhen(Begun(p, 5) + [last], d, [p]);
  }

  lemma TwoFrames(id: CanId, p: seq<byte>)
    requires |p| == 8
    ensures OnBus(id, CanScan.SegmentAll([p])) == [Frame(id, SegmentAt(p, 0))] + [Frame(id, SegmentAt(p, 1))]
    ensures SoloAll(None, [Frame(id, SegmentAt(p, 0))]).left == Some(2)
    ensures PciOf(Frame(id, SegmentAt(p, 1))) == Consecutive && Flatten([p]) == p
  {
    hide SegmentAt, SoloAll, CanScan.SegmentAll, Flatten;
    assert Segment(p)[..1] == [SegmentAt(p, 0)];
    LongAnswerShown(None, id, p, 1);
    assert OnBus(id, Segment(p)[..1]) == [Frame(id, SegmentAt(p, 0))];
    CanScan.ConsecutiveNumber(p, 1);
    OneAnswer(p);
    var fs := OnBus(id, Segment(p));
    assert |fs| == 2 && fs[0] == Frame(id, SegmentAt(p, 0)) && fs[1] == Frame(id, SegmentAt(p, 1));
  }

  lemma OneAnswer(p: seq<byte>)
    ensures CanScan.SegmentAll([p]) == Segment(p) && Flatten([p]) == p
  {
    assert [p][..0] == [];
  }

  /** Main result: as long as every first frame was answered, no frame is owed exactly when every
      multi-frame responder has sent the last byte it announced. */
  lemma NothingOwedMeansComplete(fs: seq<CanFrame>)
    requires FullFrames(fs) && |MultiFrame(fs)| <= SLOTS
    ensures AnyOwed(CountAll(fs)) <==>
      exists id :: id in MultiFrame(fs) && SoloAll(None, FramesOf(fs, id)).left != Some(0)
  {
    hide SoloAll, FramesOf, ShownFor, ShowAll, CountAll;
    CountdownsAgree(fs);
    var owed, t := CountAll(fs), ShowAll(fs);
    forall i | 0 <= i < |t|
      ensures t[i].id in MultiFrame(fs) && SoloAll(None, FramesOf(fs, t[i].id)).left == Some(t[i].left) {
      EachAsIfAlone(fs, t[i].id);
      LeftAt(t, i);
    }
    forall id | id in MultiFrame(fs) ensures exists i :: 0 <= i < |t| && t[i].id == id {
      EachAsIfAlone(fs, id);
    }
  }

  lemma LeftAt(t: Table, i: nat)
    requires i < |t| && Distinct(t)
    ensures Left(t, t[i].id) == Some(t[i].left) && t[i].id in Ids(t)
  {
  }
}
