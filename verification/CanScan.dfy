/** How the scanner puts one responder's frames back together (tools/canscan.py, `reassemble`). */
module CanScan {
  import opened CanTypes
  import opened IsoTp

  /** The loop variables of `reassemble`. `expected == 0` means no message is under way. */
  datatype Assembly = Assembly(messages: seq<seq<byte>>, partial: seq<byte>, expected: nat, next: nat)

  const IDLE := Assembly([], [], 0, 0)

  function Take(a: Assembly, frame: seq<byte>): Assembly
    requires |frame| > 0
  {
    var kind := frame[0] / 16;
    var low: int := frame[0] % 16;
    if kind == 0 && 0 < low < |frame| then
      a.(messages := a.messages + [frame[1..1 + low]], expected := 0)
    else if kind == 1 && |frame| >= 2 then
      a.(expected := low * 256 + frame[1], partial := frame[2..], next := 1)
    else if kind == 2 && a.expected != 0 && low == a.next then
      var partial := a.partial + frame[1..];
      if |partial| >= a.expected then
        Assembly(a.messages + [partial[..a.expected]], partial, 0, (a.next + 1) % 16)
      else
        a.(partial := partial, next := (a.next + 1) % 16)
    else if kind == 2 then
      a.(expected := 0)
    else a
  }

  predicate NonEmpty(frames: seq<seq<byte>>) {
    forall i :: 0 <= i < |frames| ==> |frames[i]| > 0
  }

  function Scan(a: Assembly, frames: seq<seq<byte>>): Assembly
    requires NonEmpty(frames)
    decreases |frames|
  {
    if frames == [] then a
    else Take(Scan(a, frames[..|frames| - 1]), frames[|frames| - 1])
  }

  predicate IsPending(message: seq<byte>) {
    |message| >= 3 && message[0] == 0x7F && message[2] == 0x78
  }

  function Final(messages: seq<seq<byte>>): seq<seq<byte>> {
    if messages == [] then []
    else
      var front, last := Final(messages[..|messages| - 1]), messages[|messages| - 1];
      if IsPending(last) then front else front + [last]
  }

  /** What a client wants to see, in order: every message but those that start 7F xx 78. */
  function Answers(messages: seq<seq<byte>>): seq<seq<byte>> {
    if messages == [] then []
    else
      var m := messages[0];
      (if |m| < 3 || m[0] != 0x7F || m[2] != 0x78 then [m] else []) + Answers(messages[1..])
  }

  lemma {:induction false} AnswersNext(messages: seq<seq<byte>>, m: seq<byte>)
    ensures Answers(messages + [m])
      == Answers(messages) + (if |m| >= 3 && m[0] == 0x7F && m[2] == 0x78 then [] else [m])
    decreases |messages|
  {
    if messages == [] {
      assert [] + [m] == [m] && [m][1..] == [];
    } else {
      AnswersNext(messages[1..], m);
      assert (messages + [m])[1..] == messages[1..] + [m];
    }
  }

  /** That is what the scanner keeps. */
  lemma {:induction false} FinalIsAnswers(messages: seq<seq<byte>>)
    ensures Final(messages) == Answers(messages)
  {
    if messages != [] {
      var front, last := messages[..|messages| - 1], messages[|messages| - 1];
      FinalIsAnswers(front);
      AnswersNext(front, last);
      assert messages == front + [last];
    }
  }

  /** Nothing is dropped exactly if no message starts 7F xx 78. */
  lemma {:induction false} FinalKeepsExactly(messages: seq<seq<byte>>)
    ensures |Final(messages)| <= |messages|
    ensures Final(messages) == messages <==>
      forall i :: 0 <= i < |messages| ==> var m := messages[i]; !(|m| >= 3 && m[0] == 0x7F && m[2] == 0x78)
  {
    if messages != [] {
      var front := messages[..|messages| - 1];
      FinalKeepsExactly(front);
      assert messages == front + [messages[|messages| - 1]];
    }
  }

  /** Complete messages of one responder, without the response-pending ones. */
  method Reassemble(frames: seq<seq<byte>>) returns (messages: seq<seq<byte>>)
    requires NonEmpty(frames)
    ensures messages == Final(Scan(IDLE, frames).messages) == Answers(Scan(IDLE, frames).messages)
  {
    var all: seq<seq<byte>> := [];
    var partial: seq<byte> := [];
    var expected, next := 0, 0;
    for i := 0 to |frames|
      invariant expected >= 0 && next >= 0
      invariant Assembly(all, partial, expected, next) == Scan(IDLE, frames[..i])
    {
      var frame := frames[i];
      assert frames[..i + 1][..i] == frames[..i];
      var kind := frame[0] / 16;
      var low: int := frame[0] % 16;
      if kind == 0 && 0 < low < |frame| {
        all := all + [frame[1..1 + low]];
        expected := 0;
      } else if kind == 1 && |frame| >= 2 {
        expected := low * 256 + frame[1];
        partial := frame[2..];
        next := 1;
      } else if kind == 2 && expected != 0 && low == next {
        partial := partial + frame[1..];
        next := (next + 1) % 16;
        if |partial| >= expected {
          all := all + [partial[..expected]];
          expected := 0;
        }
      } else if kind == 2 {
        expected := 0;
      }
    }
    assert frames[..|frames|] == frames;
    messages := [];
    for i := 0 to |all|
      invariant messages == Final(all[..i])
    {
      assert all[..i + 1][..i] == all[..i];
      if !IsPending(all[i]) {
        messages := messages + [all[i]];
      }
    }
    assert all[..|all|] == all;
    FinalIsAnswers(all);
  }

  // ---------- Round trip: every complete answer comes back ----------

  /** All frames of several answers, one answer after the other. A response-pending frame is
      the segmentation of a three-byte answer, so it may stand anywhere in the list. */
  function SegmentAll(answers: seq<seq<byte>>): (r: seq<seq<byte>>)
    ensures NonEmpty(r)
    ensures forall k :: 0 <= k < |r| ==> |r[k]| == 8
  {
    if answers == [] then []
    else SegmentAll(answers[..|answers| - 1]) + Segment(answers[|answers| - 1])
  }

  predicate Sendable(answer: seq<byte>) { 1 <= |answer| <= 4095 }

  lemma {:induction false} ScanConcat(a: Assembly, xs: seq<seq<byte>>, ys: seq<seq<byte>>)
    requires NonEmpty(xs) && NonEmpty(ys)
    ensures NonEmpty(xs + ys)
    ensures Scan(a, xs + ys) == Scan(Scan(a, xs), ys)
    decreases |ys|
  {
    if ys == [] {
      assert xs + ys == xs;
    } else {
      ScanConcat(a, xs, ys[..|ys| - 1]);
      assert (xs + ys)[..|xs + ys| - 1] == xs + ys[..|ys| - 1];
    }
  }

  /** A consecutive frame before the last carries seven payload bytes and no padding. */
  lemma MiddleFrame(p: seq<byte>, k: nat)
    requires 8 <= |p| <= 4095 && 1 <= k && k + 1 < FrameCount(|p|)
    ensures SegmentAt(p, k)[0] == 0x20 + k % 16
    ensures 7 * k + 6 < |p| && SegmentAt(p, k)[1..] == p[7 * k - 1..7 * k + 6]
  {
  }

  /** The last consecutive frame carries the rest of the payload, then padding. */
  lemma LastFrame(p: seq<byte>, k: nat)
    requires 8 <= |p| <= 4095 && 1 <= k == FrameCount(|p|) - 1
    ensures SegmentAt(p, k)[0] == 0x20 + k % 16
    ensures 7 * k - 1 < |p| <= 7 * k + 6
    ensures SegmentAt(p, k)[1..][..|p| - (7 * k - 1)] == p[7 * k - 1..]
  {
    var chunk := p[7 * k - 1..];
    assert Carried(|p|, k) == 7 * k - 1 && Carried(|p|, k + 1) == |p|;
    assert SegmentAt(p, k)[..1 + |chunk|] == [0x20 + k % 16] + chunk;
  }

  lemma ConsecutiveTaken(a: Assembly, frame: seq<byte>, k: nat)
    requires |frame| == 8 && frame[0] == 0x20 + k % 16
    requires a.expected != 0 && a.next == k % 16
    ensures var partial := a.partial + frame[1..];
      Take(a, frame) ==
        if |partial| >= a.expected then
          Assembly(a.messages + [partial[..a.expected]], partial, 0, (k + 1) % 16)
        else Assembly(a.messages, partial, a.expected, (k + 1) % 16)
  {
  }

  lemma FirstTaken(a: Assembly, p: seq<byte>)
    requires 8 <= |p| <= 4095
    ensures Take(a, SegmentAt(p, 0)) == Assembly(a.messages, p[..6], |p|, 1)
  {
    assert SegmentAt(p, 0)[2..] == p[..6];
  }

  lemma SingleTaken(a: Assembly, p: seq<byte>)
    requires 1 <= |p| <= 7
    ensures Take(a, SegmentAt(p, 0)) == a.(messages := a.messages + [p], expected := 0)
  {
    assert SegmentAt(p, 0)[..1 + |p|] == [|p|] + p;
    assert SegmentAt(p, 0)[1..1 + |p|] == p;
  }

  lemma ScanNext(a: Assembly, p: seq<byte>, k: nat)
    requires k < FrameCount(|p|)
    ensures Scan(a, Segment(p)[..0]) == a
    ensures Scan(a, Segment(p)[..k + 1]) == Take(Scan(a, Segment(p)[..k]), SegmentAt(p, k))
  {
    assert Segment(p)[..k + 1][..k] == Segment(p)[..k];
  }

  /** After k >= 1 frames of a long answer, the scanner holds exactly what they carried. */
  lemma {:induction false} LongAnswerUnderWay(a: Assembly, p: seq<byte>, k: nat)
    requires 8 <= |p| <= 4095 && 1 <= k < FrameCount(|p|)
    ensures Scan(a, Segment(p)[..k]) == Assembly(a.messages, p[..7 * k - 1], |p|, k % 16)
  {
    hide Take, Scan, SegmentAt;
    ScanNext(a, p, k - 1);
    if k == 1 {
      FirstTaken(a, p);
    } else {
      LongAnswerUnderWay(a, p, k - 1);
      MiddleFrame(p, k - 1);
      ConsecutiveTaken(Scan(a, Segment(p)[..k - 1]), SegmentAt(p, k - 1), k - 1);
      assert p[..7 * k - 8] + p[7 * k - 8..7 * k - 1] == p[..7 * k - 1];
    }
  }

  lemma {:induction false} AnswerComesBack(a: Assembly, p: seq<byte>)
    requires Sendable(p)
    ensures var s := Scan(a, Segment(p)); s.messages == a.messages + [p] && s.expected == 0
  {
    hide Take, Scan, SegmentAt;
    var n := FrameCount(|p|);
    ScanNext(a, p, n - 1);
    assert Segment(p)[..n] == Segment(p);
    if |p| <= 7 {
      SingleTaken(a, p);
    } else {
      LongAnswerUnderWay(a, p, n - 1);
      LastFrame(p, n - 1);
      var s := Scan(a, Segment(p)[..n - 1]);
      ConsecutiveTaken(s, SegmentAt(p, n - 1), n - 1);
      assert (s.partial + SegmentAt(p, n - 1)[1..])[..|p|] == p;
    }
  }

  /** Main result: any list of answers of 1 to 4095 bytes, segmented one after the other, is
      reassembled to exactly that list, whatever the scanner had seen before. */
  lemma {:induction false} RoundTrip(a: Assembly, answers: seq<seq<byte>>)
    requires forall i :: 0 <= i < |answers| ==> Sendable(answers[i])
    ensures Scan(a, SegmentAll(answers)).messages == a.messages + answers
    decreases |answers|
  {
    hide Take, Scan, SegmentAt, FrameCount, Segment;
    if answers == [] {
      ScanNothing(a);
      assert a.messages + answers == a.messages;
    } else {
      var front := answers[..|answers| - 1];
      RoundTrip(a, front);
      ScanConcat(a, SegmentAll(front), Segment(answers[|answers| - 1]));
      AnswerComesBack(Scan(a, SegmentAll(front)), answers[|answers| - 1]);
      assert a.messages + answers == a.messages + front + [answers[|answers| - 1]];
    }
  }

  /** Main result: what the scanner makes of the frames of any answers of 1 to 4095 bytes is exactly those
      answers, in order, but for the ones that start 7F xx 78. */
  lemma ReassembledExactly(answers: seq<seq<byte>>)
    requires forall i :: 0 <= i < |answers| ==> 1 <= |answers[i]| <= 4095
    ensures Final(Scan(IDLE, SegmentAll(answers)).messages) == Answers(answers)
  {
    hide Scan, SegmentAll, Final, Answers;
    RoundTrip(IDLE, answers);
    assert IDLE.messages + answers == answers;
    FinalIsAnswers(answers);
  }

  // ---------- Loss: a damaged answer never becomes a wrong one ----------

  /** The frames that a lossy bus lets through: those whose `kept` flag is set. */
  function Kept(frames: seq<seq<byte>>, kept: seq<bool>): seq<seq<byte>>
    requires |kept| == |frames|
  {
    if frames == [] then []
    else (if kept[0] then [frames[0]] else []) + Kept(frames[1..], kept[1..])
  }

  predicate AllConsecutive(frames: seq<seq<byte>>) {
    forall i :: 0 <= i < |frames| ==> |frames[i]| == 8 && frames[i][0] / 16 == 2
  }

  lemma {:induction false} KeptShape(frames: seq<seq<byte>>, kept: seq<bool>)
    requires |kept| == |frames| && AllConsecutive(frames)
    ensures AllConsecutive(Kept(frames, kept))
    ensures |Kept(frames, kept)| <= |frames|
    ensures false in kept ==> |Kept(frames, kept)| < |frames|
    decreases |frames|
  {
    if frames != [] {
      KeptShape(frames[1..], kept[1..]);
      assert kept == [kept[0]] + kept[1..];
    }
  }

  /** Too few consecutive frames complete nothing, whatever their sequence numbers. */
  lemma {:induction false} TooFewConsecutive(a: Assembly, frames: seq<seq<byte>>)
    requires AllConsecutive(frames)
    requires a.expected == 0 || |a.partial| + 7 * |frames| < a.expected
    ensures var s := Scan(a, frames);
      s.messages == a.messages
      && (s.expected == 0 || (s.expected == a.expected && |s.partial| <= |a.partial| + 7 * |frames|))
    decreases |frames|
  {
    if frames != [] {
      TooFewConsecutive(a, frames[..|frames| - 1]);
    }
  }

  /** Main result: when at least one frame of an answer is lost, the scanner reports no message
      at all, even if a multiple of 16 consecutive frames is missing and the sequence numbers
      still line up. */
  lemma {:induction false} LossNeverCorrupts(p: seq<byte>, kept: seq<bool>)
    requires Sendable(p) && |kept| == FrameCount(|p|) && false in kept
    ensures NonEmpty(Kept(Segment(p), kept))
    ensures Final(Scan(IDLE, Kept(Segment(p), kept)).messages) == []
  {
    hide Scan, Take, SegmentAt;
    var frames := Segment(p);
    var rest := Kept(frames[1..], kept[1..]);
    ScanNothing(IDLE);
    if |p| <= 7 {
      assert kept == [kept[0]];
    } else {
      LongAnswerShape(p);
      KeptShape(frames[1..], kept[1..]);
      if kept[0] {
        assert kept == [true] + kept[1..];
        ScanConcat(IDLE, [frames[0]], rest);
        ScanOne(IDLE, frames[0]);
        FirstTaken(IDLE, p);
        TooFewConsecutive(Take(IDLE, frames[0]), rest);
      } else {
        assert Kept(frames, kept) == rest;
        TooFewConsecutive(IDLE, rest);
      }
    }
  }

  lemma LongAnswerShape(p: seq<byte>)
    requires 8 <= |p| <= 4095
    ensures AllConsecutive(Segment(p)[1..])
  {
  }

  // ---------- Loss across two answers ----------

  /** What c frames of an answer carry after their control byte, from frame j on, padding included. */
  function Bodies(q: seq<byte>, j: nat, c: nat): (r: seq<byte>)
    requires j + c <= FrameCount(|q|)
    ensures |r| == 7 * c
  {
    if c == 0 then [] else Bodies(q, j, c - 1) + SegmentAt(q, j + c - 1)[1..]
  }

  /** How many consecutive frames complete the message under way. */
  function Missing(a: Assembly): nat { if |a.partial| < a.expected then (a.expected - |a.partial| + 6) / 7 else 0 }

  /** c consecutive frames, from number j on, that fall in with a message under way. */
  lemma {:induction false} FallIn(a: Assembly, q: seq<byte>, j: nat, c: nat)
    requires 8 <= |q| <= 4095 && 1 <= j && j + c <= FrameCount(|q|)
    requires |a.partial| < a.expected && a.next == j % 16
    ensures var s := Scan(a, Segment(q)[j..j + c]);
      if c < Missing(a) then s == Assembly(a.messages, a.partial + Bodies(q, j, c), a.expected, (j + c) % 16)
      else s.expected == 0 && s.messages == a.messages + [(a.partial + Bodies(q, j, Missing(a)))[..a.expected]]
    decreases c
  {
    hide Take, Scan, SegmentAt, FrameCount, Segment;
    if c == 0 {
      assert Segment(q)[j..j] == [];
      ScanNothing(a);
    } else {
      FallIn(a, q, j, c - 1);
      var frames := Segment(q)[j..j + c];
      OneMoreSegment(a, q, j, c);
      var s, k := Scan(a, Segment(q)[j..j + c - 1]), j + c - 1;
      ConsecutiveNumber(q, k);
      if s.expected != 0 {
        ConsecutiveTaken(s, frames[c - 1], k);
        assert a.partial + Bodies(q, j, c - 1) + SegmentAt(q, k)[1..] == a.partial + Bodies(q, j, c);
      } else {
        StaysIdle(s, frames[c - 1]);
      }
    }
  }

  lemma OneMoreSegment(a: Assembly, q: seq<byte>, j: nat, c: nat)
    requires 0 < c && j + c <= FrameCount(|q|)
    ensures Segment(q)[j..j + c][c - 1] == SegmentAt(q, j + c - 1)
    ensures Scan(a, Segment(q)[j..j + c]) == Take(Scan(a, Segment(q)[j..j + c - 1]), SegmentAt(q, j + c - 1))
  {
    hide Take, SegmentAt;
    assert Segment(q)[j..j + c][..c - 1] == Segment(q)[j..j + c - 1];
  }

  lemma ConsecutiveNumber(q: seq<byte>, k: nat)
    requires 8 <= |q| <= 4095 && 1 <= k < FrameCount(|q|)
    ensures SegmentAt(q, k)[0] == 0x20 + k % 16
  {
  }

  lemma StaysIdle(s: Assembly, frame: seq<byte>)
    requires |frame| == 8 && frame[0] / 16 == 2 && s.expected == 0
    ensures Take(s, frame) == s
  {
  }

  /** Main result: when the end of one long answer and the beginning of the next are lost, the scanner
      takes them for one message, made of both, exactly if the frame after the gap has the number that was
      due and enough frames follow; else it reports nothing of either. */
  lemma SpliceExactlyWhen(p: seq<byte>, q: seq<byte>, i: nat, j: nat)
    requires 8 <= |p| <= 4095 && 8 <= |q| <= 4095 && 1 <= i < FrameCount(|p|) && 1 <= j < FrameCount(|q|)
    ensures var left := FrameCount(|p|) - i;
      Scan(IDLE, Segment(p)[..i] + Segment(q)[j..]).messages
        == if i % 16 == j % 16 && j + left <= FrameCount(|q|) then [(p[..7 * i - 1] + Bodies(q, j, left))[..|p|]] else []
  {
    hide Scan, Take, SegmentAt;
    var xs, ys := Segment(p)[..i], Segment(q)[j..];
    LongAnswerUnderWay(IDLE, p, i);
    ScanConcat(IDLE, xs, ys);
    if i % 16 == j % 16 {
      assert ys == Segment(q)[j..j + (FrameCount(|q|) - j)];
      assert Missing(Scan(IDLE, xs)) == FrameCount(|p|) - i;
      FallIn(Scan(IDLE, xs), q, j, FrameCount(|q|) - j);
    } else {
      NothingFallsIn(Scan(IDLE, xs), q, j);
    }
  }

  lemma NothingFallsIn(a: Assembly, q: seq<byte>, j: nat)
    requires 8 <= |q| <= 4095 && 1 <= j < FrameCount(|q|) && a.next != j % 16
    ensures Scan(a, Segment(q)[j..]).messages == a.messages
  {
    hide Scan, Take, SegmentAt;
    var ys := Segment(q)[j..];
    assert ys == [ys[0]] + ys[1..] && ys[0] == SegmentAt(q, j);
    LongAnswerShape(q);
    assert ys[1..] == Segment(q)[1..][j..];
    ScanConcat(a, [ys[0]], ys[1..]);
    ScanOne(a, ys[0]);
    ConsecutiveNumber(q, j);
    OutOfTurn(a, ys[0]);
    TooFewConsecutive(Take(a, ys[0]), ys[1..]);
  }

  lemma OutOfTurn(a: Assembly, frame: seq<byte>)
    requires |frame| == 8 && frame[0] / 16 == 2 && frame[0] % 16 != a.next
    ensures Take(a, frame) == a.(expected := 0)
  {
  }

  lemma ScanNothing(a: Assembly)
    ensures Scan(a, []) == a
  {
  }

  lemma ScanOne(a: Assembly, frame: seq<byte>)
    requires |frame| > 0
    ensures Scan(a, [frame]) == Take(a, frame)
  {
    assert [frame] == [] + [frame];
  }
}
