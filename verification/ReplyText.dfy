/** The scanner's view of printed frames (tools/canscan.py, `parse_frame`, `parse_frames` and
    `Reply.parse`), and the round trip from payloads through text and back. */
module ReplyText {
  import opened CanTypes
  import opened Config
  import CanScan
  import Text

  function HexValue(c: char): (v: Option<nat>)
    ensures v.Some? ==> v.value < 16
  {
    if '0' <= c <= '9' then Some(c as int - '0' as int)
    else if 'A' <= c <= 'F' then Some(c as int - 'A' as int + 10)
    else if 'a' <= c <= 'f' then Some(c as int - 'a' as int + 10)
    else None
  }

  predicate AllHex(s: string) { forall i :: 0 <= i < |s| ==> HexValue(s[i]).Some? }

  predicate IsHex(s: string) { s != "" && AllHex(s) }

  function WithoutSpaces(s: string): string {
    if s == "" then ""
    else WithoutSpaces(s[..|s| - 1]) + (if s[|s| - 1] == ' ' then "" else [s[|s| - 1]])
  }

  function Number(s: string): nat {
    if s == "" then 0
    else 16 * Number(s[..|s| - 1]) + HexValue(s[|s| - 1]).GetOr(0)
  }

  function Joined(high: char, low: char): byte {
    HexValue(high).GetOr(0) * 16 + HexValue(low).GetOr(0)
  }

  function FromHex(s: string): (r: seq<byte>)
    requires |s| % 2 == 0
    ensures |r| == |s| / 2
  {
    if s == "" then []
    else FromHex(s[..|s| - 2]) + [Joined(s[|s| - 2], s[|s| - 1])]
  }

  datatype Parsed = Parsed(id: nat, data: seq<byte>)

  /** A printed line read back: an id of three or eight hex digits, then the data bytes, with or without
      spaces between them; None for anything else, such as a status text. */
  function ParseFrame(line: string): (p: Option<Parsed>)
    ensures p.Some? ==> 1 <= |p.value.data| <= 8
  {
    var hexits := WithoutSpaces(line);
    if !IsHex(hexits) then None
    else
      var idLength := if |hexits| % 2 == 1 then 3 else 8;
      if |hexits| < idLength then None
      else
        var data := hexits[idLength..];
        if 2 <= |data| <= 16 then Some(Parsed(Number(hexits[..idLength]), FromHex(data))) else None
  }

  // ---------- One line ----------

  function HexOf(data: seq<byte>): string {
    if data == [] then "" else HexOf(data[..|data| - 1]) + Text.ByteText(data[|data| - 1])
  }

  /** The line that headers on, DLC display off, prints for a frame. */
  function Printed(spaces: bool, f: CanFrame): string {
    Text.WithBytes(spaces, Text.WithCanId(spaces, "", f.id), f.data)
  }

  lemma PrintedIsFormatted(s: Settings, monitor: bool, t: Text.Table, f: CanFrame)
    requires s.headers && !s.dlc && |t| <= Text.SLOTS
    ensures Text.Lines(s, monitor, t, f) == [Printed(s.spaces, f)]
    ensures Text.Clip(Printed(s.spaces, f)) == Printed(s.spaces, f)
  {
    Text.LinesFit(s, monitor, t, f, 0);
  }

  lemma WithoutSpacesAppend(s: string, c: char)
    ensures WithoutSpaces(s + [c]) == WithoutSpaces(s) + (if c == ' ' then "" else [c])
  {
    assert (s + [c])[..|s|] == s;
  }

  lemma DigitIsHex(v: nat)
    ensures HexValue(Text.Digit(v)) == Some(v % 16) && Text.Digit(v) != ' '
  {
  }

  lemma ByteStripped(spaces: bool, line: string, b: byte)
    ensures WithoutSpaces(Text.WithByte(spaces, line, b)) == WithoutSpaces(line) + Text.ByteText(b)
  {
    hide WithoutSpaces, Text.Digit;
    var sep := Text.Sep(spaces, line);
    DigitIsHex(b / 16);
    DigitIsHex(b);
    if sep != "" { WithoutSpacesAppend(line, ' '); } else { assert line + sep == line; }
    WithoutSpacesAppend(line + sep, Text.Digit(b / 16));
    WithoutSpacesAppend(line + sep + [Text.Digit(b / 16)], Text.Digit(b));
    assert line + sep + Text.ByteText(b) == line + sep + [Text.Digit(b / 16)] + [Text.Digit(b)];
  }

  lemma {:induction false} BytesStripped(spaces: bool, line: string, data: seq<byte>)
    ensures WithoutSpaces(Text.WithBytes(spaces, line, data)) == WithoutSpaces(line) + HexOf(data)
  {
    if data != [] {
      var front := data[..|data| - 1];
      BytesStripped(spaces, line, front);
      ByteStripped(spaces, Text.WithBytes(spaces, line, front), data[|data| - 1]);
    }
  }

  function IdText(id: CanId): string {
    if id.ext then HexOf(Text.IdBytes(id.value))
    else [Text.Digit(id.value / 256), Text.Digit(id.value / 16), Text.Digit(id.value)]
  }

  lemma IdStripped(spaces: bool, id: CanId)
    ensures WithoutSpaces(Text.WithCanId(spaces, "", id)) == IdText(id)
  {
    if id.ext {
      BytesStripped(spaces, "", Text.IdBytes(id.value));
    } else {
      hide Text.Digit, WithoutSpaces;
      var a, b, c := Text.Digit(id.value / 256), Text.Digit(id.value / 16), Text.Digit(id.value);
      DigitIsHex(id.value / 256);
      DigitIsHex(id.value / 16);
      DigitIsHex(id.value);
      WithoutSpacesAppend("", a);
      WithoutSpacesAppend([a], b);
      WithoutSpacesAppend([a, b], c);
      assert "" + [a] == [a] && [a] + [b] == [a, b] && [a, b] + [c] == [a, b, c];
      NoText();
      assert Text.WithCanId(spaces, "", id) == [a, b, c];
    }
  }

  lemma NoText()
    ensures WithoutSpaces("") == ""
  {
  }

  lemma {:induction false} HexOfIsHex(data: seq<byte>)
    ensures |HexOf(data)| == 2 * |data|
    ensures AllHex(HexOf(data))
    ensures FromHex(HexOf(data)) == data
  {
    hide HexValue, Text.Digit, Text.ByteText, FromHex, AllHex, HexOf;
    if data == [] {
      NoHex();
    } else {
      var front, b := data[..|data| - 1], data[|data| - 1];
      HexOfIsHex(front);
      HexOfNext(data);
      ByteTextIsHex(HexOf(front), b);
    }
  }

  lemma NoHex()
    ensures HexOf([]) == "" && AllHex("") && FromHex("") == []
  {
  }

  lemma HexOfNext(data: seq<byte>)
    requires data != []
    ensures HexOf(data) == HexOf(data[..|data| - 1]) + Text.ByteText(data[|data| - 1])
  {
  }

  lemma ByteTextIsHex(s: string, b: byte)
    requires |s| % 2 == 0
    ensures AllHex(s) ==> AllHex(s + Text.ByteText(b))
    ensures FromHex(s + Text.ByteText(b)) == FromHex(s) + [b]
  {
    hide Text.Digit, HexValue, Joined;
    var high, low := Text.Digit(b / 16), Text.Digit(b);
    DigitIsHex(b / 16);
    DigitIsHex(b);
    ByteJoined(b);
    TwoDigits(s, high, low);
    assert Text.ByteText(b) == [high, low];
  }

  lemma TwoDigits(s: string, high: char, low: char)
    requires |s| % 2 == 0 && HexValue(high).Some? && HexValue(low).Some?
    ensures AllHex(s) ==> AllHex(s + [high, low])
    ensures FromHex(s + [high, low]) == FromHex(s) + [Joined(high, low)]
  {
    hide HexValue, Joined, AllHex, FromHex;
    HexGrows(s, high, low);
    var t := s + [high, low];
    assert t[..|t| - 2] == s && t[|t| - 2] == high && t[|t| - 1] == low;
    LastByte(t);
  }

  lemma HexGrows(s: string, high: char, low: char)
    requires HexValue(high).Some? && HexValue(low).Some?
    ensures AllHex(s) ==> AllHex(s + [high, low])
  {
    hide HexValue;
  }

  lemma LastByte(t: string)
    requires |t| % 2 == 0 && t != ""
    ensures FromHex(t) == FromHex(t[..|t| - 2]) + [Joined(t[|t| - 2], t[|t| - 1])]
  {
    hide HexValue, Joined;
  }

  lemma ByteJoined(b: byte)
    ensures Joined(Text.Digit(b / 16), Text.Digit(b)) == b
  {
    hide Text.Digit, HexValue;
    DigitIsHex(b / 16);
    DigitIsHex(b);
  }

  lemma FourBytesNumber(v: uint32)
    ensures |Text.IdBytes(v)| == 4
    ensures 0x100_0000 * (Text.IdBytes(v)[0] as int) + 0x1_0000 * (Text.IdBytes(v)[1] as int)
      + 0x100 * (Text.IdBytes(v)[2] as int) + Text.IdBytes(v)[3] as int == v
  {
    assert v / 0x1_0000 / 0x100 == v / 0x100_0000;
    assert v / 0x100 / 0x100 == v / 0x1_0000;
  }

  lemma NumberAppend(s: string, c: char)
    ensures Number(s + [c]) == 16 * Number(s) + HexValue(c).GetOr(0)
  {
    assert (s + [c])[..|s|] == s;
  }

  lemma NumberOfByte(s: string, b: byte)
    ensures Number(s + Text.ByteText(b)) == 256 * Number(s) + b
  {
    hide Number, Text.Digit;
    DigitIsHex(b / 16);
    DigitIsHex(b);
    NumberAppend(s, Text.Digit(b / 16));
    NumberAppend(s + [Text.Digit(b / 16)], Text.Digit(b));
    assert s + Text.ByteText(b) == s + [Text.Digit(b / 16)] + [Text.Digit(b)];
  }

  lemma NumberOfId(id: CanId)
    ensures Number(IdText(id)) == id.value && IsHex(IdText(id))
    ensures |IdText(id)| == if id.ext then 8 else 3
  {
    if id.ext { NumberOfLongId(id.value); } else { NumberOfShortId(id.value); }
  }

  lemma NumberOfLongId(v: uint32)
    ensures var s := HexOf(Text.IdBytes(v)); Number(s) == v && IsHex(s) && |s| == 8
  {
    hide Text.Digit, Number, HexOf, Text.IdBytes, Text.ByteText, AllHex;
    var bytes := Text.IdBytes(v);
    FourBytesNumber(v);
    HexOfIsHex(bytes);
    FourBytes(bytes);
    ZeroNumber();
    NumberOfByte("", bytes[0]);
    NumberOfByte(HexOf(bytes[..1]), bytes[1]);
    NumberOfByte(HexOf(bytes[..2]), bytes[2]);
    NumberOfByte(HexOf(bytes[..3]), bytes[3]);
  }

  lemma NumberOfShortId(v: nat)
    requires v < 0x1000
    ensures var s := [Text.Digit(v / 256), Text.Digit(v / 16), Text.Digit(v)]; Number(s) == v && IsHex(s)
  {
    hide Text.Digit, Number, HexValue;
    DigitIsHex(v / 256);
    DigitIsHex(v / 16);
    DigitIsHex(v);
    var a, b, c := Text.Digit(v / 256), Text.Digit(v / 16), Text.Digit(v);
    NumberAppend("", a);
    NumberAppend([a], b);
    NumberAppend([a, b], c);
    assert "" + [a] == [a] && [a] + [b] == [a, b] && [a, b] + [c] == [a, b, c];
    ZeroNumber();
    ThreeNibbles(v);
  }

  lemma ThreeNibbles(v: nat)
    requires v < 0x1000
    ensures 16 * (16 * (v / 256 % 16) + v / 16 % 16) + v % 16 == v
  {
    assert v / 256 < 16 && v / 16 / 16 == v / 256;
  }

  lemma ZeroNumber()
    ensures Number("") == 0
  {
  }

  lemma FourBytes(bytes: seq<byte>)
    requires |bytes| == 4
    ensures HexOf(bytes[..1]) == "" + Text.ByteText(bytes[0])
    ensures HexOf(bytes[..2]) == HexOf(bytes[..1]) + Text.ByteText(bytes[1])
    ensures HexOf(bytes[..3]) == HexOf(bytes[..2]) + Text.ByteText(bytes[2])
    ensures HexOf(bytes) == HexOf(bytes[..3]) + Text.ByteText(bytes[3])
  {
    assert bytes[..1][..0] == [] && bytes[..2][..1] == bytes[..1] && bytes[..3][..2] == bytes[..2];
  }

  /** Main result for one line: a frame with 1 to 8 data bytes, of either width, with or without
      spaces, is read back exactly; a frame without data is taken for status text. */
  lemma PrintedParsesBack(spaces: bool, f: CanFrame)
    ensures ParseFrame(Printed(spaces, f)) ==
      if f.data == [] then None else Some(Parsed(f.id.value, f.data))
  {
    hide Number, WithoutSpaces, FromHex, HexOf, IdText;
    IdStripped(spaces, f.id);
    BytesStripped(spaces, Text.WithCanId(spaces, "", f.id), f.data);
    NumberOfId(f.id);
    HexOfIsHex(f.data);
    var hexits := IdText(f.id) + HexOf(f.data);
    assert IsHex(hexits);
    var idLength := if f.id.ext then 8 else 3;
    assert hexits[..idLength] == IdText(f.id) && hexits[idLength..] == HexOf(f.data);
  }

  /** Any frame that is printed whole: its id with headers, its length in one digit if that is asked for,
      and every data byte. */
  lemma WholeLine(s: Settings, monitor: bool, t: Text.Table, f: CanFrame)
    requires (!s.caf || s.headers) && |t| <= Text.SLOTS
    ensures |Text.Lines(s, monitor, t, f)| == 1
    ensures WithoutSpaces(Text.Lines(s, monitor, t, f)[0])
      == (if s.headers then IdText(f.id) else "")
         + (if s.headers && s.dlc then [['0', '1', '2', '3', '4', '5', '6', '7', '8'][|f.data|]] else "") + HexOf(f.data)
  {
    hide WithoutSpaces, Text.WithBytes, Text.WithCanId, HexOf, IdText, Text.Digit;
    var id := if s.headers then Text.WithCanId(s.spaces, "", f.id) else "";
    if s.headers { IdStripped(s.spaces, f.id); } else { NoText(); }
    var sep, digit := Text.Sep(s.spaces, id), Text.Digit(|f.data|);
    LengthDigit(|f.data|);
    var all := if s.headers && s.dlc then id + sep + [digit] else id;
    if sep != "" { WithoutSpacesAppend(id, ' '); } else { assert id + sep == id; }
    WithoutSpacesAppend(id + sep, digit);
    BytesStripped(s.spaces, all, f.data);
  }

  lemma LengthDigit(n: nat)
    requires n <= 8
    ensures Text.Digit(n) == ['0', '1', '2', '3', '4', '5', '6', '7', '8'][n] != ' '
  {
  }

  /** With AT S1 there is one blank between two bytes. */
  lemma {:induction false} BytesApart(data: seq<byte>)
    ensures var line := Text.WithBytes(true, "", data);
      |line| == (if data == [] then 0 else 3 * |data| - 1)
      && (forall i :: 0 <= i < |data| ==> line[3 * i] == Text.Digit(data[i] / 16) && line[3 * i + 1] == Text.Digit(data[i]))
      && (forall i :: 1 <= i < |data| ==> line[3 * i - 1] == ' ')
  {
    hide Text.Digit;
    if data != [] {
      var front, b := data[..|data| - 1], data[|data| - 1];
      BytesApart(front);
      var before, sep := Text.WithBytes(true, "", front), if front == [] then "" else " ";
      assert Text.WithBytes(true, "", data) == before + sep + [Text.Digit(b / 16), Text.Digit(b)];
    }
  }

  /** With AT S0 there is none. */
  lemma {:induction false} BytesTogether(data: seq<byte>)
    ensures Text.WithBytes(false, "", data) == HexOf(data)
  {
    hide Text.ByteText;
    if data != [] { BytesTogether(data[..|data| - 1]); }
  }

  /** What only the monitor prints in payload mode: flow control after FC:, and a frame that is no ISO-TP frame,
      marked as an error. */
  lemma MonitorMarks(s: Settings, t: Text.Table, f: CanFrame)
    requires s.caf && !s.headers && |t| <= Text.SLOTS && f.data != []
    ensures 0x30 <= f.data[0] <= 0x3F ==>
      Text.Lines(s, false, t, f) == [] && |Text.Lines(s, true, t, f)| == 1
      && WithoutSpaces(Text.Lines(s, true, t, f)[0]) == "FC:" + HexOf(f.data)
    ensures f.data[0] >= 0x40 || f.data[0] == 0 ==>
      Text.Lines(s, false, t, f) == []
      && Text.Lines(s, true, t, f) == [Text.WithBytes(s.spaces, "", f.data) + " <DATA ERROR"]
  {
    hide WithoutSpaces, Text.WithBytes, HexOf, Text.ShowPayload;
    BytesStripped(s.spaces, "FC:", f.data);
    NoText();
    WithoutSpacesAppend("", 'F');
    WithoutSpacesAppend("F", 'C');
    WithoutSpacesAppend("FC", ':');
    assert "" + ['F'] == "F" && "F" + ['C'] == "FC" && "FC" + [':'] == "FC:";
  }

  // ---------- A whole reply ----------

  /** The data of every parsed line of one responder, in order. */
  function FramesOf(lines: seq<string>, id: nat): (r: seq<seq<byte>>)
    ensures CanScan.NonEmpty(r)
  {
    if lines == [] then []
    else
      var p := ParseFrame(lines[|lines| - 1]);
      FramesOf(lines[..|lines| - 1], id)
        + (if p.Some? && p.value.id == id then [p.value.data] else [])
  }

  lemma FramesNext(lines: seq<string>, i: nat, id: nat)
    requires i < |lines|
    ensures var p := ParseFrame(lines[i]);
      FramesOf(lines[..i + 1], id) == FramesOf(lines[..i], id) + (if p.Some? && p.value.id == id then [p.value.data] else [])
  {
    hide ParseFrame;
    assert lines[..i + 1][..i] == lines[..i];
  }

  /** The map holds, per id, the data of its lines. */
  ghost predicate ById(frames: map<nat, seq<seq<byte>>>, lines: seq<string>) {
    forall id :: (id in frames <==> FramesOf(lines, id) != []) && (id in frames ==> frames[id] == FramesOf(lines, id))
  }

  lemma ByIdNext(frames: map<nat, seq<seq<byte>>>, lines: seq<string>, i: nat)
    requires i < |lines| && ById(frames, lines[..i])
    ensures var p := ParseFrame(lines[i]);
      ById(if p.None? then frames
           else frames[p.value.id := (if p.value.id in frames then frames[p.value.id] else []) + [p.value.data]],
           lines[..i + 1])
  {
    hide ParseFrame, FramesOf;
    var p := ParseFrame(lines[i]);
    var next := if p.None? then frames
                else frames[p.value.id := (if p.value.id in frames then frames[p.value.id] else []) + [p.value.data]];
    forall id
      ensures (id in next <==> FramesOf(lines[..i + 1], id) != [])
              && (id in next ==> next[id] == FramesOf(lines[..i + 1], id)) {
      FramesNext(lines, i, id);
    }
  }

  /** Raw frames per responder, in arrival order. */
  method ParseFrames(lines: seq<string>) returns (frames: map<nat, seq<seq<byte>>>)
    ensures forall id :: id in frames <==> FramesOf(lines, id) != []
    ensures forall id :: id in frames ==> frames[id] == FramesOf(lines, id)
  {
    frames := map[];
    for i := 0 to |lines|
      invariant ById(frames, lines[..i])
    {
      hide ParseFrame, FramesOf, ById;
      ByIdNext(frames, lines, i);
      var p := ParseFrame(lines[i]);
      if p.Some? {
        var id := p.value.id;
        frames := frames[id := (if id in frames then frames[id] else []) + [p.value.data]];
      }
    }
    assert lines[..|lines|] == lines;
  }

  /** `Reply.parse`: the final messages of every responder. */
  method ParseReply(lines: seq<string>) returns (messages: map<nat, seq<seq<byte>>>)
    ensures forall id :: id in messages <==> FramesOf(lines, id) != []
    ensures forall id :: id in messages ==>
      messages[id] == CanScan.Final(CanScan.Scan(CanScan.IDLE, FramesOf(lines, id)).messages)
  {
    hide FramesOf, CanScan.Scan, CanScan.Final;
    var frames := ParseFrames(lines);
    messages := map[];
    var ids := frames.Keys;
    while ids != {}
      invariant ids <= frames.Keys && messages.Keys == frames.Keys - ids
      invariant forall id :: id in messages ==>
        messages[id] == CanScan.Final(CanScan.Scan(CanScan.IDLE, FramesOf(lines, id)).messages)
      decreases ids
    {
      var id :| id in ids;
      var m := CanScan.Reassemble(frames[id]);
      messages := messages[id := m];
      ids := ids - {id};
    }
  }

  function PrintAll(spaces: bool, fs: seq<CanFrame>): seq<string> {
    seq(|fs|, i requires 0 <= i < |fs| => Printed(spaces, fs[i]))
  }

  /** The data of the frames of one responder. */
  function DataOf(fs: seq<CanFrame>, id: nat): seq<seq<byte>> {
    if fs == [] then []
    else DataOf(fs[..|fs| - 1], id) + (if fs[|fs| - 1].id.value == id then [fs[|fs| - 1].data] else [])
  }

  lemma {:induction false} PrintKeepsFrames(spaces: bool, fs: seq<CanFrame>, id: nat)
    requires forall i :: 0 <= i < |fs| ==> fs[i].data != []
    ensures FramesOf(PrintAll(spaces, fs), id) == DataOf(fs, id)
  {
    hide ParseFrame, Printed;
    if fs != [] {
      var front, last := fs[..|fs| - 1], fs[|fs| - 1];
      PrintKeepsFrames(spaces, front, id);
      PrintedParsesBack(spaces, last);
      assert PrintAll(spaces, fs)[..|fs| - 1] == PrintAll(spaces, front);
    }
  }

  /** Main result, end to end: however the complete answers of several responders interleave on
      the bus, if responder `id` sent the segmentation of `answers`, then printing every frame
      with headers, reading the lines back and reassembling gives exactly `answers`, but for those
      that start 7F xx 78. Responders are told apart by their id value. */
  lemma AnswersComeBack(spaces: bool, fs: seq<CanFrame>, id: nat, answers: seq<seq<byte>>)
    requires forall i :: 0 <= i < |fs| ==> fs[i].data != []
    requires forall i :: 0 <= i < |answers| ==> CanScan.Sendable(answers[i])
    requires DataOf(fs, id) == CanScan.SegmentAll(answers)
    ensures CanScan.Final(CanScan.Scan(CanScan.IDLE, FramesOf(PrintAll(spaces, fs), id)).messages)
      == CanScan.Answers(answers)
  {
    hide CanScan.Scan, CanScan.Final, CanScan.SegmentAll, FramesOf, PrintAll, DataOf, CanScan.Answers;
    PrintKeepsFrames(spaces, fs, id);
    CanScan.ReassembledExactly(answers);
  }
}
