/** What a client reads in a reply: the text cut into lines (tools/canscan.py, `_read_prompt`), and the
    payload lines of headers-off mode (lib/elm/src/text.cpp, `FrameFormatter::format`) put back together
    into the answers they were printed for. */
module Readout {
  import opened CanTypes
  import opened Config
  import opened Exchange
  import opened IsoTp
  import opened Replies
  import opened ReplyText
  import opened Text
  import CanScan
  import Padding

  // ---------- The text of a reply, line by line ----------

  /** The lines so far, what came since the last line end, and whether the prompt has come. */
  datatype Inbox = Inbox(lines: seq<string>, open: string, prompted: bool)

  function TrimLeft(s: string): string { if s == "" || s[0] != ' ' then s else TrimLeft(s[1..]) }

  function TrimRight(s: string): string {
    if s == "" || s[|s| - 1] != ' ' then s else TrimRight(s[..|s| - 1])
  }

  function Ended(i: Inbox): Inbox {
    var line := TrimRight(TrimLeft(i.open));
    if line == "" then i.(open := "") else i.(lines := i.lines + [line], open := "")
  }

  function Arrived(i: Inbox, c: char): Inbox {
    if i.prompted then i
    else if c == '>' then Ended(i).(prompted := true)
    else if c == '\r' || c == '\n' then Ended(i)
    else i.(open := i.open + [c])
  }

  function ArrivedAll(i: Inbox, text: string): Inbox {
    if text == "" then i else Arrived(ArrivedAll(i, text[..|text| - 1]), text[|text| - 1])
  }

  /** The lines up to the prompt, without the blank ones. */
  function LinesOf(text: string): seq<string> { Ended(ArrivedAll(Inbox([], "", false), text)).lines }

  predicate Plain(s: string) { forall i :: 0 <= i < |s| ==> s[i] != '\r' && s[i] != '\n' && s[i] != '>' }

  /** A line as it is printed: something, on one line, with no blank at either end. */
  predicate Neat(line: string) { line != "" && Plain(line) && line[0] != ' ' && line[|line| - 1] != ' ' }

  predicate AllNeat(lines: seq<string>) { forall i :: 0 <= i < |lines| ==> Neat(lines[i]) }

  lemma {:induction false} ArrivedJoins(i: Inbox, a: string, b: string)
    ensures ArrivedAll(i, a + b) == ArrivedAll(ArrivedAll(i, a), b)
    decreases |b|
  {
    if b == "" {
      assert a + b == a;
    } else {
      ArrivedJoins(i, a, b[..|b| - 1]);
      assert (a + b)[..|a + b| - 1] == a + b[..|b| - 1];
    }
  }

  lemma {:induction false} PlainArrives(i: Inbox, line: string)
    requires !i.prompted && Plain(line)
    ensures ArrivedAll(i, line) == i.(open := i.open + line)
  {
    if line == "" {
      assert i.open + line == i.open;
    } else {
      PlainArrives(i, line[..|line| - 1]);
      assert i.open + line == i.open + line[..|line| - 1] + [line[|line| - 1]];
    }
  }

  /** A line end, CR or CR LF, after a neat line, or after nothing. */
  lemma EndArrives(i: Inbox, s: Settings)
    requires !i.prompted && (i.open == "" || Neat(i.open))
    ensures ArrivedAll(i, LineEnd(s)) == Inbox(if i.open == "" then i.lines else i.lines + [i.open], "", false)
  {
    var ended := Ended(i);
    assert ArrivedAll(i, "\r") == ended by { assert "\r"[..0] == ""; }
    if s.linefeeds { assert "\r\n"[..1] == "\r"; }
  }

  lemma LineArrives(i: Inbox, line: string, s: Settings)
    requires !i.prompted && i.open == "" && Neat(line)
    ensures ArrivedAll(i, line + LineEnd(s)) == i.(lines := i.lines + [line])
  {
    hide Neat, LineEnd;
    assert Plain(line) by { NeatIsPlain(line); }
    ArrivedJoins(i, line, LineEnd(s));
    PlainArrives(i, line);
    assert i.open + line == line;
    EndArrives(i.(open := line), s);
    NeatIsPlain(line);
  }

  lemma NeatIsPlain(line: string)
    requires Neat(line)
    ensures Plain(line) && line != ""
  {
  }

  lemma {:induction false} LinesArrive(lines: seq<string>, s: Settings)
    requires AllNeat(lines)
    ensures ArrivedAll(Inbox([], "", false), Rendered(lines, LineEnd(s))) == Inbox(lines, "", false)
  {
    hide Neat, LineEnd, ArrivedAll;
    if lines == [] {
      NothingArrives();
    } else {
      var front, last := lines[..|lines| - 1], lines[|lines| - 1];
      LinesArrive(front, s);
      LineArrives(Inbox(front, "", false), last, s);
      assert Rendered(lines, LineEnd(s)) == Rendered(front, LineEnd(s)) + (last + LineEnd(s));
      ArrivedJoins(Inbox([], "", false), Rendered(front, LineEnd(s)), last + LineEnd(s));
    }
  }

  lemma NothingArrives()
    ensures ArrivedAll(Inbox([], "", false), "") == Inbox([], "", false)
  {
  }

  /** Main result for the text: neat lines, the line end after them and the prompt, are read as exactly
      those lines, with or without line feeds. */
  lemma LinesComeBack(lines: seq<string>, s: Settings)
    requires AllNeat(lines)
    ensures LinesOf(Rendered(lines, LineEnd(s)) + LineEnd(s) + ">") == lines
  {
    hide AllNeat, LineEnd, ArrivedAll, Rendered;
    var i := Inbox([], "", false);
    var text := Rendered(lines, LineEnd(s));
    LinesArrive(lines, s);
    ArrivedJoins(i, text, LineEnd(s));
    EndArrives(Inbox(lines, "", false), s);
    PromptArrives(i, text + LineEnd(s), lines);
  }

  lemma PromptArrives(i: Inbox, text: string, lines: seq<string>)
    requires ArrivedAll(i, text) == Inbox(lines, "", false)
    ensures Ended(ArrivedAll(i, text + ">")).lines == lines
  {
    assert (text + ">")[..|text|] == text;
  }

  // ---------- Every line is neat ----------

  lemma DigitIsPlain(v: nat)
    ensures var c := Digit(v); c != ' ' && c != '\r' && c != '\n' && c != '>'
  {
  }

  lemma ByteIsNeat(spaces: bool, line: string, b: byte)
    requires line == "" || (Plain(line) && line[0] != ' ')
    ensures Neat(WithByte(spaces, line, b))
  {
    hide Digit;
    DigitIsPlain(b / 16);
    DigitIsPlain(b);
  }

  lemma {:induction false} BytesAreNeat(spaces: bool, line: string, data: seq<byte>)
    requires if line == "" then data != [] else Neat(line)
    ensures Neat(WithBytes(spaces, line, data))
  {
    hide WithByte;
    if data != [] {
      var front := data[..|data| - 1];
      if line != "" || front != [] { BytesAreNeat(spaces, line, front); }
      ByteIsNeat(spaces, WithBytes(spaces, line, front), data[|data| - 1]);
    }
  }

  lemma IdIsNeat(spaces: bool, id: CanId)
    ensures Neat(WithCanId(spaces, "", id))
  {
    hide Digit;
    if id.ext {
      BytesAreNeat(spaces, "", IdBytes(id.value));
    } else {
      DigitIsPlain(id.value / 256);
      DigitIsPlain(id.value / 16);
      DigitIsPlain(id.value);
    }
  }

  lemma WholeIsNeat(s: Settings, t: Table, f: CanFrame)
    requires |t| <= SLOTS && f.data != [] && (!s.caf || s.headers)
    ensures AllNeat(Lines(s, false, t, f))
  {
    hide Digit, WithBytes, WithCanId;
    var id := if s.headers then WithCanId(s.spaces, "", f.id) else "";
    if s.headers { IdIsNeat(s.spaces, f.id); }
    var dlc := if s.headers && s.dlc then id + Sep(s.spaces, id) + [Digit(|f.data|)] else id;
    DigitIsPlain(|f.data|);
    BytesAreNeat(s.spaces, dlc, f.data);
  }

  lemma PayloadIsNeat(s: Settings, t: Table, f: CanFrame)
    requires |t| <= SLOTS && s.caf && !s.headers
    ensures AllNeat(Lines(s, false, t, f))
  {
    hide Digit, WithBytes;
    var bytes := ShowPayload(t, f).bytes;
    match PciOf(f)
    case Single => if SingleFrameLength(f) != 0 { BytesAreNeat(s.spaces, "", bytes); }
    case First =>
      if |f.data| >= 2 {
        var total := FirstFrameLength(f);
        DigitIsPlain(total / 256);
        DigitIsPlain(total / 16);
        DigitIsPlain(total);
        BytesAreNeat(s.spaces, "0:", bytes);
      }
    case Consecutive =>
      DigitIsPlain(f.data[0]);
      BytesAreNeat(s.spaces, [Digit(f.data[0]), ':'], bytes);
    case FlowControl =>
    case Other =>
  }

  lemma {:induction false} ScreenIsNeat(s: Settings, fs: seq<CanFrame>)
    requires forall i :: 0 <= i < |fs| ==> fs[i].data != []
    ensures AllNeat(Screen(s, false, fs))
  {
    hide Lines, Neat, TableAfter;
    if fs != [] {
      var front, f := fs[..|fs| - 1], fs[|fs| - 1];
      ScreenIsNeat(s, front);
      if !s.caf || s.headers { WholeIsNeat(s, TableAfter(s, front), f); } else { PayloadIsNeat(s, TableAfter(s, front), f); }
    }
  }

  lemma OutcomeIsNeat(o: Outcome)
    ensures AllNeat(OutcomeLines(o))
  {
  }

  /** Main result: whatever the settings, a reply with its prompt is read as the lines of its frames and
      of its outcome. */
  lemma ReplyComesBack(s: Settings, log: seq<CanFrame>, o: Outcome)
    requires forall i :: 0 <= i < |log| ==> log[i].data != []
    ensures LinesOf(ReplyTo(s, log, o) + LineEnd(s) + ">") == Screen(s, false, log) + OutcomeLines(o)
  {
    hide Screen, OutcomeLines, LinesOf, Rendered, LineEnd;
    ScreenIsNeat(s, log);
    OutcomeIsNeat(o);
    LinesComeBack(Screen(s, false, log) + OutcomeLines(o), s);
  }

  // ---------- Answers shown without headers ----------

  /** The answers read so far; and of the one under way its announced length, its bytes and the label
      of its next line. */
  datatype Reading = Reading(answers: seq<seq<byte>>, announced: nat, partial: seq<byte>, next: nat) | Unreadable

  const NOTHING_READ := Reading([], 0, [], 0)

  /** A plain line is an answer; three digits announce the length of one; a labelled line carries the
      next bytes of it, and must have the next label. */
  function ReadLine(r: Reading, line: string): Reading {
    var t := WithoutSpaces(line);
    if r.Unreadable? then r
    else if |t| >= 2 && t[1] == ':' then
      if r.announced != 0 && HexValue(t[0]) == Some(r.next % 16) && |t| % 2 == 0 && AllHex(t[2..]) then
        More(r, FromHex(t[2..]))
      else Unreadable
    else if r.announced != 0 || !IsHex(t) then Unreadable
    else if |t| == 3 then Reading(r.answers, Number(t), [], 0)
    else if |t| % 2 == 0 then Reading(r.answers + [FromHex(t)], 0, [], 0)
    else Unreadable
  }

  /** The answer is complete with exactly the announced number of bytes. */
  function More(r: Reading, bytes: seq<byte>): Reading
    requires r.Reading?
  {
    var partial := r.partial + bytes;
    if |partial| < r.announced then Reading(r.answers, r.announced, partial, r.next + 1)
    else if |partial| == r.announced then Reading(r.answers + [partial], 0, [], 0)
    else Unreadable
  }

  function ReadAll(r: Reading, lines: seq<string>): Reading {
    if lines == [] then r else ReadLine(ReadAll(r, lines[..|lines| - 1]), lines[|lines| - 1])
  }

  /** The answers in the lines of a headers-off reply, if they can be read, down to the last. */
  function ReadShown(lines: seq<string>): Option<seq<seq<byte>>> {
    var r := ReadAll(NOTHING_READ, lines);
    if r.Reading? && r.announced == 0 then Some(r.answers) else None
  }

  lemma {:induction false} ReadJoins(r: Reading, a: seq<string>, b: seq<string>)
    ensures ReadAll(r, a + b) == ReadAll(ReadAll(r, a), b)
    decreases |b|
  {
    hide ReadLine;
    if b == [] {
      assert a + b == a;
    } else {
      ReadJoins(r, a, b[..|b| - 1]);
      assert (a + b)[..|a + b| - 1] == a + b[..|b| - 1];
    }
  }

  lemma ReadOne(r: Reading, line: string)
    ensures ReadAll(r, [line]) == ReadLine(r, line)
  {
    hide ReadLine;
    assert [line][..0] == [];
  }

  lemma ReadTwo(r: Reading, line: string, next: string)
    ensures ReadAll(r, [line, next]) == ReadLine(ReadLine(r, line), next)
  {
    hide ReadLine;
    ReadOne(r, line);
    assert [line, next][..1] == [line];
  }

  /** A plain line of bytes is read as those bytes. */
  lemma PlainLineRead(r: Reading, spaces: bool, bytes: seq<byte>)
    requires r.Reading? && r.announced == 0 && 1 <= |bytes| <= 8
    ensures ReadLine(r, WithBytes(spaces, "", bytes)) == Reading(r.answers + [bytes], 0, [], 0)
  {
    hide WithoutSpaces, WithBytes, HexOf, FromHex, HexValue;
    BytesStripped(spaces, "", bytes);
    NoText();
    HexOfIsHex(bytes);
    var t := WithoutSpaces(WithBytes(spaces, "", bytes));
    assert t == HexOf(bytes);
    assert HexValue(t[1]).Some?;
    ColonIsNoDigit();
  }

  lemma ColonIsNoDigit()
    ensures HexValue(':') == None
  {
  }

  /** Three digits are read as the length they stand for. */
  lemma LengthLineRead(r: Reading, total: nat)
    requires r.Reading? && r.announced == 0 && total < 0x1000
    ensures ReadLine(r, [Digit(total / 256), Digit(total / 16), Digit(total)]) == Reading(r.answers, total, [], 0)
  {
    hide WithoutSpaces, Digit, HexValue, Number;
    var a, b, c := Digit(total / 256), Digit(total / 16), Digit(total);
    DigitIsHex(total / 256);
    DigitIsHex(total / 16);
    DigitIsHex(total);
    NoText();
    WithoutSpacesAppend("", a);
    WithoutSpacesAppend([a], b);
    WithoutSpacesAppend([a, b], c);
    assert "" + [a] == [a] && [a] + [b] == [a, b] && [a, b] + [c] == [a, b, c];
    NumberOfShortId(total);
    ColonIsNoDigit();
  }

  /** A labelled line is read as the bytes after its label. */
  lemma LabelledLineRead(r: Reading, spaces: bool, number: nat, bytes: seq<byte>)
    requires r.Reading? && r.announced != 0 && number % 16 == r.next % 16
    ensures ReadLine(r, WithBytes(spaces, [Digit(number), ':'], bytes)) == More(r, bytes)
  {
    hide WithoutSpaces, WithBytes, HexOf, FromHex, HexValue, Digit, AllHex;
    var d := Digit(number);
    BytesStripped(spaces, [d, ':'], bytes);
    DigitIsHex(number);
    NoText();
    WithoutSpacesAppend("", d);
    WithoutSpacesAppend([d], ':');
    assert "" + [d] == [d] && [d] + [':'] == [d, ':'];
    HexOfIsHex(bytes);
    var t := WithoutSpaces(WithBytes(spaces, [d, ':'], bytes));
    assert t == [d, ':'] + HexOf(bytes) && t[2..] == HexOf(bytes);
  }

  // ---------- What is printed for an answer ----------

  /** The reader after the first `n` bytes of `p`. */
  function PartWay(done: seq<seq<byte>>, p: seq<byte>, n: nat, k: nat): Reading
    requires n <= |p|
  {
    if n == |p| then Reading(done + [p], 0, [], 0) else Reading(done, |p|, p[..n], k)
  }

  lemma LeftAfterPut(t: Table, id: CanId, n: nat)
    requires |t| <= SLOTS
    ensures Left(Put(t, id, n), id) == Some(n)
  {
    var t' := Put(t, id, n);
    var i: nat := if Find(t, id).Some? then Find(t, id).value else |t'| - 1;
    assert t'[i] == Entry(id, n);
    assert forall j :: 0 <= j < i ==> t'[j].id == t[j].id;
    assert Find(t', id) == Some(i);
  }

  /** A single frame is printed as its payload. */
  lemma SingleRead(s: Settings, t: Table, id: CanId, p: seq<byte>, done: seq<seq<byte>>)
    requires s.caf && !s.headers && |t| <= SLOTS && 1 <= |p| <= 7
    ensures ReadAll(Reading(done, 0, [], 0), Lines(s, false, t, Frame(id, SegmentAt(p, 0)))) == Reading(done + [p], 0, [], 0)
  {
    hide ReadLine, WithBytes, SegmentAt, ReadAll;
    var f: CanFrame := Frame(id, SegmentAt(p, 0));
    SingleParts(id, p);
    assert Lines(s, false, t, f) == [WithBytes(s.spaces, "", p)];
    ReadOne(Reading(done, 0, [], 0), WithBytes(s.spaces, "", p));
    PlainLineRead(Reading(done, 0, [], 0), s.spaces, p);
  }

  lemma SingleParts(id: CanId, p: seq<byte>)
    requires 1 <= |p| <= 7
    ensures var f: CanFrame := Frame(id, SegmentAt(p, 0));
      PciOf(f) == Single && SingleFrameLength(f) == |p| && f.data[1..1 + |p|] == p
  {
    var f: CanFrame := Frame(id, SegmentAt(p, 0));
    assert f.data[..1 + |p|] == [|p|] + p;
    assert f.data[0] == |p|;
    assert f.data[1..1 + |p|] == p;
  }

  /** A first frame is printed as the length, and its six bytes under label 0. */
  lemma FirstRead(s: Settings, t: Table, id: CanId, p: seq<byte>, done: seq<seq<byte>>)
    requires s.caf && !s.headers && |t| <= SLOTS && 8 <= |p| <= 4095
    ensures var f: CanFrame := Frame(id, SegmentAt(p, 0));
      ReadAll(Reading(done, 0, [], 0), Lines(s, false, t, f)) == Reading(done, |p|, p[..6], 1)
      && Left(ShowPayload(t, f).table, id) == Some(|p| - 6)
  {
    hide ReadLine, WithBytes, SegmentAt, Put, Left, Digit, ReadAll;
    var n: nat := |p|;
    var f: CanFrame := Frame(id, SegmentAt(p, 0));
    FirstParts(id, p);
    LeftAfterPut(t, id, n - 6);
    var length := [Digit(n / 256), Digit(n / 16), Digit(n)];
    var r := Reading(done, 0, [], 0);
    LabelZero();
    assert Lines(s, false, t, f) == [length, WithBytes(s.spaces, [Digit(0), ':'], p[..6])];
    ReadTwo(r, length, WithBytes(s.spaces, [Digit(0), ':'], p[..6]));
    LengthLineRead(r, n);
    LabelledLineRead(Reading(done, n, [], 0), s.spaces, 0, p[..6]);
    assert [] + p[..6] == p[..6];
  }

  lemma LabelZero()
    ensures [Digit(0), ':'] == "0:"
  {
  }

  lemma FirstParts(id: CanId, p: seq<byte>)
    requires 8 <= |p| <= 4095
    ensures var f: CanFrame := Frame(id, SegmentAt(p, 0));
      PciOf(f) == First && FirstFrameLength(f) == |p| && f.data[2..8] == p[..6]
  {
    var n: int := |p|;
    var f: CanFrame := Frame(id, SegmentAt(p, 0));
    assert f.data[0] == 0x10 + n / 256 % 16 && f.data[1] == n % 256;
    assert f.data[2..8] == p[..6];
  }

  /** A consecutive frame is printed as the bytes it adds, under its sequence digit. */
  lemma NextRead(s: Settings, t: Table, id: CanId, p: seq<byte>, done: seq<seq<byte>>, k: nat)
    requires s.caf && !s.headers && |t| <= SLOTS && 8 <= |p| <= 4095 && 1 <= k < FrameCount(|p|)
    requires Left(t, id) == Some(|p| - Carried(|p|, k))
    ensures var f: CanFrame := Frame(id, SegmentAt(p, k));
      ReadAll(PartWay(done, p, Carried(|p|, k), k), Lines(s, false, t, f)) == PartWay(done, p, Carried(|p|, k + 1), k + 1)
      && Left(ShowPayload(t, f).table, id) == Some(|p| - Carried(|p|, k + 1))
  {
    hide ReadLine, WithBytes, SegmentAt, Digit, ReadAll;
    var n, m := Carried(|p|, k), Carried(|p|, k + 1);
    var f: CanFrame := Frame(id, SegmentAt(p, k));
    var line := WithBytes(s.spaces, [Digit(k), ':'], p[n..m]);
    NextParts(id, p, k);
    NextShown(t, f, |p| - n);
    assert f.data[1..1 + (m - n)] == p[n..m];
    SameDigit(f.data[0], k);
    assert Lines(s, false, t, f) == [line];
    ReadOne(PartWay(done, p, n, k), line);
    LabelledLineRead(Reading(done, |p|, p[..n], k), s.spaces, k, p[n..m]);
    assert p[..n] + p[n..m] == p[..m];
    if m == |p| { assert p[..m] == p; }
  }

  lemma SameDigit(a: nat, b: nat)
    requires a % 16 == b % 16
    ensures Digit(a) == Digit(b)
  {
  }

  lemma NextParts(id: CanId, p: seq<byte>, k: nat)
    requires 8 <= |p| <= 4095 && 1 <= k < FrameCount(|p|)
    ensures var f: CanFrame := Frame(id, SegmentAt(p, k)); var n, m := Carried(|p|, k), Carried(|p|, k + 1);
      PciOf(f) == Consecutive && f.data[0] % 16 == k % 16 && n < m <= |p| && m - n <= 7 && (m < |p| ==> m - n == 7)
      && f.data[1..1 + (m - n)] == p[n..m]
  {
    var f: CanFrame := Frame(id, SegmentAt(p, k));
    var chunk := ChunkAt(p, k);
    assert f.data[..1 + |chunk|] == [0x20 + k % 16] + chunk;
    assert f.data[0] == 0x20 + k % 16;
    assert f.data[1..1 + |chunk|] == chunk;
  }

  /** A consecutive frame shows seven bytes, or what is left. */
  lemma NextShown(t: Table, f: CanFrame, left: nat)
    requires |t| <= SLOTS && |f.data| == 8 && PciOf(f) == Consecutive && Left(t, f.id) == Some(left)
    ensures var n := if left < 7 then left else 7;
      ShowPayload(t, f).bytes == f.data[1..1 + n] && Left(ShowPayload(t, f).table, f.id) == Some(left - n)
  {
    var k := Find(t, f.id);
    var t' := ShowPayload(t, f).table;
    assert forall i :: 0 <= i < |t| ==> t'[i].id == t[i].id;
    var m := Find(t', f.id);
    assert m.Some? by { assert t'[k.value].id == f.id; }
  }

  /** `k` frames of `p`, after whatever was printed before. */
  lemma {:induction false} LongRead(s: Settings, before: seq<CanFrame>, id: CanId, p: seq<byte>, done: seq<seq<byte>>,
                                    k: nat)
    requires s.caf && !s.headers && 8 <= |p| <= 4095 && 1 <= k <= FrameCount(|p|)
    requires ReadAll(NOTHING_READ, Screen(s, false, before)) == Reading(done, 0, [], 0)
    ensures var fs := before + Padding.OnBus(id, Segment(p)[..k]);
      ReadAll(NOTHING_READ, Screen(s, false, fs)) == PartWay(done, p, Carried(|p|, k), k)
      && Left(TableAfter(s, fs), id) == Some(|p| - Carried(|p|, k))
    decreases k
  {
    hide ReadAll, Lines, SegmentAt, Left, Screen, TableAfter, FrameCount, ShowPayload;
    var front := before + Padding.OnBus(id, Segment(p)[..k - 1]);
    var f: CanFrame := Frame(id, SegmentAt(p, k - 1));
    assert before + Padding.OnBus(id, Segment(p)[..k]) == front + [f];
    ShownNext(s, false, front, f, "");
    ReadJoins(NOTHING_READ, Screen(s, false, front), Lines(s, false, TableAfter(s, front), f));
    if k == 1 {
      assert front == before;
      FirstRead(s, TableAfter(s, front), id, p, done);
    } else {
      LongRead(s, before, id, p, done, k - 1);
      NextRead(s, TableAfter(s, front), id, p, done, k - 1);
    }
  }

  lemma AnswerRead(s: Settings, before: seq<CanFrame>, id: CanId, p: seq<byte>, done: seq<seq<byte>>)
    requires s.caf && !s.headers && CanScan.Sendable(p)
    requires ReadAll(NOTHING_READ, Screen(s, false, before)) == Reading(done, 0, [], 0)
    ensures ReadAll(NOTHING_READ, Screen(s, false, before + Padding.OnBus(id, Segment(p)))) == Reading(done + [p], 0, [], 0)
  {
    hide ReadAll, Lines, SegmentAt, Screen, TableAfter;
    if |p| <= 7 {
      var f: CanFrame := Frame(id, SegmentAt(p, 0));
      assert before + Padding.OnBus(id, Segment(p)) == before + [f];
      ShownNext(s, false, before, f, "");
      ReadJoins(NOTHING_READ, Screen(s, false, before), Lines(s, false, TableAfter(s, before), f));
      SingleRead(s, TableAfter(s, before), id, p, done);
    } else {
      LongRead(s, before, id, p, done, FrameCount(|p|));
      AllFramesCarryAll(|p|);
      assert Segment(p)[..FrameCount(|p|)] == Segment(p);
    }
  }

  // ---------- The frames of some answers ----------

  /** An answer, and who gave it. */
  datatype Said = Said(id: CanId, answer: seq<byte>)

  predicate AllSendable(said: seq<Said>) { forall i :: 0 <= i < |said| ==> CanScan.Sendable(said[i].answer) }

  /** One answer after the other, each cut into frames. */
  function FramesSaid(said: seq<Said>): seq<CanFrame> {
    if said == [] then []
    else
      var last := said[|said| - 1];
      FramesSaid(said[..|said| - 1]) + Padding.OnBus(last.id, Segment(last.answer))
  }

  function AnswersSaid(said: seq<Said>): seq<seq<byte>> { seq(|said|, i requires 0 <= i < |said| => said[i].answer) }

  /** Main result: headers off, whoever gave the answers, however many there are and whatever countdown
      is left from before, the lines printed for their frames are read as exactly those answers, byte for
      byte: a plain line for a single frame; for a longer answer its length in three digits, then lines
      labelled with the sequence digit. */
  lemma {:induction false} ShownReadsBack(s: Settings, said: seq<Said>)
    requires s.caf && !s.headers && AllSendable(said)
    ensures ReadShown(Screen(s, false, FramesSaid(said))) == Some(AnswersSaid(said))
    ensures ReadAll(NOTHING_READ, Screen(s, false, FramesSaid(said))) == Reading(AnswersSaid(said), 0, [], 0)
  {
    hide Screen, ReadAll, Segment;
    if said == [] {
      NothingShown(s, false);
      assert ReadAll(NOTHING_READ, []) == NOTHING_READ by { NothingToRead(); }
      assert AnswersSaid(said) == [];
    } else {
      var front, last := said[..|said| - 1], said[|said| - 1];
      ShownReadsBack(s, front);
      AnswerRead(s, FramesSaid(front), last.id, last.answer, AnswersSaid(front));
      assert AnswersSaid(said) == AnswersSaid(front) + [last.answer];
    }
  }

  lemma NothingToRead()
    ensures ReadAll(NOTHING_READ, []) == NOTHING_READ
  {
  }
}
