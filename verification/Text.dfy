/** Printing frames (lib/elm/src/text.cpp): the 48-byte line writer, the formatter with its
    per-responder countdown, and the counters of frames still owed (lib/elm/src/bus.cpp). */
module Text {
  import opened CanTypes
  import opened Config

  const LINE_MAX := 48

  const HEX := "0123456789ABCDEF"

  function Digit(v: nat): char { HEX[v % 16] }

  function ByteText(b: byte): (s: string)
    ensures |s| == 2
  {
    [Digit(b / 16), Digit(b)]
  }

  // ---------- Text without a length limit ----------

  function Sep(spaces: bool, line: string): string { if spaces && line != "" then " " else "" }

  function WithByte(spaces: bool, line: string, b: byte): string {
    line + Sep(spaces, line) + ByteText(b)
  }

  function WithBytes(spaces: bool, line: string, data: seq<byte>): string {
    if data == [] then line
    else WithByte(spaces, WithBytes(spaces, line, data[..|data| - 1]), data[|data| - 1])
  }

  function IdBytes(v: uint32): seq<byte> {
    [v / 0x100_0000, v / 0x1_0000 % 0x100, v / 0x100 % 0x100, v % 0x100]
  }

  function WithCanId(spaces: bool, line: string, id: CanId): string {
    if id.ext then WithBytes(spaces, line, IdBytes(id.value))
    else line + Sep(spaces, line) + [Digit(id.value / 256), Digit(id.value / 16), Digit(id.value)]
  }

  lemma {:induction false} WithBytesLength(spaces: bool, line: string, data: seq<byte>)
    ensures |WithBytes(spaces, line, data)| <= |line| + 3 * |data|
    ensures data != [] ==> WithBytes(spaces, line, data) != ""
  {
    if data != [] { WithBytesLength(spaces, line, data[..|data| - 1]); }
  }

  // ---------- The line writer ----------

  function Clip(line: string): string {
    if |line| < LINE_MAX then line else line[..LINE_MAX - 1]
  }

  /** Writes into 48 bytes, one of them for the end mark; what does not fit is dropped. `full` is
      the text without the limit. */
  class LineWriter {
    const text: array<char>
    var len: nat
    const spaces: bool
    ghost var full: string

    ghost predicate Valid()
      reads this, text
    {
      text.Length == LINE_MAX && len < LINE_MAX && text[..len] == Clip(full)
    }

    constructor (spaces: bool)
      ensures Valid() && fresh(text) && this.spaces == spaces && full == ""
    {
      this.spaces := spaces;
      text := new char[LINE_MAX];
      len := 0;
      full := "";
    }

    method Put(c: char)
      requires Valid()
      modifies this, text
      ensures Valid() && full == old(full) + [c]
    {
      if len + 1 < LINE_MAX {
        text[len] := c;
        len := len + 1;
      }
      full := full + [c];
    }

    method Raw(s: string)
      requires Valid()
      modifies this, text
      ensures Valid() && full == old(full) + s
      ensures old(full) == "" ==> full == s
    {
      for i := 0 to |s|
        invariant Valid() && full == old(full) + s[..i]
      {
        Put(s[i]);
      }
    }

    method Separator()
      requires Valid()
      modifies this, text
      ensures Valid() && full == old(full) + Sep(spaces, old(full))
    {
      if spaces && len > 0 { Put(' '); }
    }

    method Byte(b: byte)
      requires Valid()
      modifies this, text
      ensures Valid() && full == WithByte(spaces, old(full), b)
    {
      Separator();
      Put(Digit(b / 16));
      Put(Digit(b));
    }

    method Nibble(v: nat)
      requires Valid()
      modifies this, text
      ensures Valid() && full == old(full) + Sep(spaces, old(full)) + [Digit(v)]
    {
      Separator();
      Put(Digit(v));
    }

    method Bytes(data: seq<byte>)
      requires Valid()
      modifies this, text
      ensures Valid() && full == WithBytes(spaces, old(full), data)
    {
      for i := 0 to |data|
        invariant Valid() && full == WithBytes(spaces, old(full), data[..i])
      {
        Byte(data[i]);
        assert data[..i + 1][..i] == data[..i];
      }
      assert data[..|data|] == data;
    }

    method Id(id: CanId)
      requires Valid()
      modifies this, text
      ensures Valid() && full == WithCanId(spaces, old(full), id)
    {
      if id.ext {
        Bytes(IdBytes(id.value));
      } else {
        Separator();
        Put(Digit(id.value / 256));
        Put(Digit(id.value / 16));
        Put(Digit(id.value));
      }
    }

    method Line() returns (s: string)
      requires Valid()
      ensures s == Clip(full)
    {
      s := text[..len];
    }
  }

  // ---------- The countdown table shared by formatter and owed-frame counters ----------

  /** Up to four (id, count) slots; a fifth id takes over the last slot. */
  datatype Entry = Entry(id: CanId, left: nat)

  type Table = seq<Entry>

  const SLOTS := 4

  function Find(t: Table, id: CanId): (k: Option<nat>)
    ensures k.Some? ==> k.value < |t| && t[k.value].id == id && forall i :: 0 <= i < k.value ==> t[i].id != id
    ensures k.None? ==> forall i :: 0 <= i < |t| ==> t[i].id != id
  {
    FindFrom(t, id, 0)
  }

  function FindFrom(t: Table, id: CanId, from: nat): (k: Option<nat>)
    requires from <= |t|
    requires forall i :: 0 <= i < from ==> t[i].id != id
    ensures k.Some? ==> k.value < |t| && t[k.value].id == id && forall i :: 0 <= i < k.value ==> t[i].id != id
    ensures k.None? ==> forall i :: 0 <= i < |t| ==> t[i].id != id
    decreases |t| - from
  {
    if from == |t| then None
    else if t[from].id == id then Some(from)
    else FindFrom(t, id, from + 1)
  }

  function Put(t: Table, id: CanId, n: nat): Table
    requires |t| <= SLOTS
  {
    var k := Find(t, id);
    if k.Some? then t[k.value := Entry(id, n)]
    else if |t| < SLOTS then t + [Entry(id, n)]
    else t[SLOTS - 1 := Entry(id, n)]
  }

  function Left(t: Table, id: CanId): Option<nat> {
    var k := Find(t, id);
    if k.Some? then Some(t[k.value].left) else None
  }

  class CountdownTable {
    const entries: array<Entry>
    var count: nat

    ghost predicate Valid()
      reads this
    {
      entries.Length == SLOTS && count <= SLOTS
    }

    ghost function Rows(): (t: Table)
      reads this, entries
      requires Valid()
      ensures |t| <= SLOTS
    {
      entries[..count]
    }

    constructor ()
      ensures Valid() && fresh(entries) && Rows() == []
    {
      entries := new Entry[SLOTS](_ => Entry(RawId(false, 0), 0));
      count := 0;
    }

    method Lookup(id: CanId) returns (k: Option<nat>)
      requires Valid()
      ensures k == Find(Rows(), id)
    {
      for i := 0 to count
        invariant forall j :: 0 <= j < i ==> entries[j].id != id
      {
        if entries[i].id == id { return Some(i); }
      }
      return None;
    }

    method Store(id: CanId, n: nat)
      requires Valid()
      modifies this, entries
      ensures Valid() && Rows() == Put(old(Rows()), id, n)
    {
      var k := Lookup(id);
      if k.Some? {
        entries[k.value] := Entry(id, n);
      } else if count < SLOTS {
        entries[count] := Entry(id, n);
        count := count + 1;
      } else {
        entries[SLOTS - 1] := Entry(id, n);
      }
    }

    method Set(k: nat, n: nat)
      requires Valid() && k < count
      modifies entries
      ensures Valid() && Rows() == old(Rows())[k := Entry(old(Rows())[k].id, n)]
    {
      entries[k] := Entry(entries[k].id, n);
    }
  }

  // ---------- Frames still owed after our flow control ----------

  function FramesOwed(first: CanFrame): nat {
    var total, inFirst := FirstFrameLength(first), (|first.data| - 2) % 0x1_0000;
    var rest := if total > inFirst then total - inFirst else 0;
    (rest + 6) / 7
  }

  function Expect(t: Table, first: CanFrame): Table
    requires |t| <= SLOTS
  {
    Put(t, first.id, FramesOwed(first))
  }

  function Received(t: Table, id: CanId): Table {
    var k := Find(t, id);
    if k.Some? && t[k.value].left > 0 then t[k.value := Entry(id, t[k.value].left - 1)] else t
  }

  predicate AnyOwed(t: Table) { exists i :: 0 <= i < |t| && t[i].left > 0 }

  class OwedFrames {
    const table: CountdownTable

    ghost predicate Valid()
      reads this, table
    {
      table.Valid()
    }

    ghost function Rows(): (t: Table)
      reads this, table, table.entries
      requires Valid()
      ensures |t| <= SLOTS
    {
      table.Rows()
    }

    constructor ()
      ensures Valid() && fresh(table) && fresh(table.entries) && Rows() == []
    {
      table := new CountdownTable();
    }

    method ExpectFrames(first: CanFrame)
      requires Valid()
      modifies table, table.entries
      ensures Valid() && Rows() == Expect(old(Rows()), first)
    {
      table.Store(first.id, FramesOwed(first));
    }

    method FrameReceived(id: CanId)
      requires Valid()
      modifies table.entries
      ensures Valid() && Rows() == Received(old(Rows()), id)
    {
      var k := table.Lookup(id);
      if k.Some? {
        var left := table.entries[k.value].left;
        if left > 0 { table.Set(k.value, left - 1); }
      }
    }

    method Any() returns (owed: bool)
      requires Valid()
      ensures owed == AnyOwed(Rows())
    {
      for i := 0 to table.count
        invariant forall j :: 0 <= j < i ==> table.entries[j].left == 0
      {
        if table.entries[i].left > 0 {
          assert Rows()[i].left > 0;
          return true;
        }
      }
      return false;
    }
  }

  // ---------- The formatter ----------

  datatype Shown = Shown(table: Table, bytes: seq<byte>)

  /** The payload bytes that CAF1 with H0 shows of a frame, and the countdown after it. */
  function ShowPayload(t: Table, f: CanFrame): Shown
    requires |t| <= SLOTS
  {
    match PciOf(f)
    case Single => Shown(t, f.data[1..1 + SingleFrameLength(f)])
    case First =>
      if |f.data| < 2 then Shown(t, [])
      else
        var total, inFirst := FirstFrameLength(f), |f.data| - 2;
        var n := if inFirst > total then total else inFirst;
        Shown(Put(t, f.id, total - n), f.data[2..2 + n])
    case Consecutive =>
      var n := |f.data| - 1;
      var k := Find(t, f.id);
      if k.None? then Shown(t, f.data[1..])
      else
        var left := t[k.value].left;
        var m := if left < n then left else n;
        Shown(t[k.value := Entry(f.id, left - m)], f.data[1..1 + m])
    case _ => Shown(t, [])
  }

  /** The lines printed for one frame, without any length limit. */
  function Lines(s: Settings, monitor: bool, t: Table, f: CanFrame): seq<string>
    requires |t| <= SLOTS
  {
    if !s.caf || s.headers then
      var id := if s.headers then WithCanId(s.spaces, "", f.id) else "";
      var dlc := if s.headers && s.dlc then id + Sep(s.spaces, id) + [Digit(|f.data|)] else id;
      [WithBytes(s.spaces, dlc, f.data)]
    else
      var bytes := ShowPayload(t, f).bytes;
      match PciOf(f)
      case Single => if SingleFrameLength(f) != 0 then [WithBytes(s.spaces, "", bytes)] else ErrorLines(s, monitor, f)
      case First =>
        if |f.data| < 2 then ErrorLines(s, monitor, f)
        else
          var total := FirstFrameLength(f);
          [[Digit(total / 256), Digit(total / 16), Digit(total)], WithBytes(s.spaces, "0:", bytes)]
      case Consecutive => [WithBytes(s.spaces, [Digit(f.data[0]), ':'], bytes)]
      case FlowControl => if monitor then [WithBytes(s.spaces, "FC:", f.data)] else []
      case Other => ErrorLines(s, monitor, f)
  }

  function ErrorLines(s: Settings, monitor: bool, f: CanFrame): seq<string> {
    if monitor then [WithBytes(s.spaces, "", f.data) + " <DATA ERROR"] else []
  }

  /** Every printed line fits the 48-byte buffer, whatever the settings and the frame. */
  lemma LinesFit(s: Settings, monitor: bool, t: Table, f: CanFrame, k: nat)
    requires |t| <= SLOTS && k < |Lines(s, monitor, t, f)|
    ensures Clip(Lines(s, monitor, t, f)[k]) == Lines(s, monitor, t, f)[k]
  {
    hide WithBytes, ShowPayload;
    ShownAtMost7(t, f);
    var bytes := ShowPayload(t, f).bytes;
    var id := if s.headers then WithCanId(s.spaces, "", f.id) else "";
    var dlc := if s.headers && s.dlc then id + Sep(s.spaces, id) + [Digit(|f.data|)] else id;
    WithBytesLength(s.spaces, "", IdBytes(f.id.value));
    WithBytesLength(s.spaces, dlc, f.data);
    WithBytesLength(s.spaces, "", bytes);
    WithBytesLength(s.spaces, "0:", bytes);
    WithBytesLength(s.spaces, "FC:", f.data);
    WithBytesLength(s.spaces, "", f.data);
    if PciOf(f) == Consecutive { WithBytesLength(s.spaces, [Digit(f.data[0]), ':'], bytes); }
  }

  lemma ShownAtMost7(t: Table, f: CanFrame)
    requires |t| <= SLOTS
    ensures |ShowPayload(t, f).bytes| <= 7 && |ShowPayload(t, f).table| <= SLOTS
  {
  }

  class FrameFormatter {
    const s: Settings
    const monitor: bool
    const table: CountdownTable

    ghost predicate Valid()
      reads this, table
    {
      table.Valid()
    }

    constructor (s: Settings, monitor: bool)
      ensures Valid() && fresh(table) && fresh(table.entries) && table.Rows() == []
      ensures this.s == s && this.monitor == monitor
    {
      this.s, this.monitor := s, monitor;
      table := new CountdownTable();
    }

    /** The payload part of CAF1 with H0: at most 7 bytes, with the padding trimmed. */
    method Payload(f: CanFrame) returns (bytes: seq<byte>)
      requires Valid()
      modifies table, table.entries
      ensures Valid() && Shown(table.Rows(), bytes) == ShowPayload(old(table.Rows()), f)
    {
      match PciOf(f)
      case Single => bytes := f.data[1..1 + SingleFrameLength(f)];
      case First =>
        if |f.data| < 2 { return []; }
        var total, n := FirstFrameLength(f), |f.data| - 2;
        if n > total { n := total; }
        table.Store(f.id, total - n);
        bytes := f.data[2..2 + n];
      case Consecutive =>
        var n := |f.data| - 1;
        var k := table.Lookup(f.id);
        if k.Some? {
          var left := table.entries[k.value].left;
          if left < n { n := left; }
          table.Set(k.value, left - n);
        }
        bytes := f.data[1..1 + n];
      case FlowControl => bytes := [];
      case Other => bytes := [];
    }

    method Format(f: CanFrame) returns (lines: seq<string>)
      requires Valid()
      modifies table, table.entries
      ensures Valid() && lines == Lines(s, monitor, old(table.Rows()), f)
      ensures table.Rows() == if !s.caf || s.headers then old(table.Rows()) else ShowPayload(old(table.Rows()), f).table
    {
      if !s.caf || s.headers {
        lines := FormatWhole(f);
      } else {
        lines := FormatPayload(f);
      }
    }

    /** CAF0 or H1: the id and dlc if asked for, then every data byte as received. */
    method FormatWhole(f: CanFrame) returns (lines: seq<string>)
      requires Valid() && (!s.caf || s.headers)
      ensures lines == Lines(s, monitor, table.Rows(), f)
    {
      hide WithBytes, ShowPayload, WithCanId, Digit, Clip;
      LinesFit(s, monitor, table.Rows(), f, 0);
      var w := new LineWriter(s.spaces);
      if s.headers {
        w.Id(f.id);
        if s.dlc { w.Nibble(|f.data|); }
      }
      w.Bytes(f.data);
      var line := w.Line();
      return [line];
    }

    /** CAF1 with H0: payload only, numbered, with the padding trimmed. */
    method FormatPayload(f: CanFrame) returns (lines: seq<string>)
      requires Valid() && s.caf && !s.headers
      modifies table, table.entries
      ensures Valid() && lines == Lines(s, monitor, old(table.Rows()), f)
      ensures table.Rows() == ShowPayload(old(table.Rows()), f).table
    {
      hide WithBytes, ShowPayload, Digit, Clip;
      ghost var want := Lines(s, monitor, table.Rows(), f);
      ghost var rows := table.Rows();
      forall k | 0 <= k < |want| ensures Clip(want[k]) == want[k] { LinesFit(s, monitor, rows, f, k); }
      var bytes := Payload(f);
      var w := new LineWriter(s.spaces);
      var pci := PciOf(f);
      if pci == First && |f.data| >= 2 {
        var total := FirstFrameLength(f);
        var length := [Digit(total / 256), Digit(total / 16), Digit(total)];
        w.Raw(length);
        assert w.full == length == want[0];
        var w2 := new LineWriter(s.spaces);
        w2.Raw("0:");
        w2.Bytes(bytes);
        assert w2.full == want[1];
        var line := w.Line();
        var line2 := w2.Line();
        return [line, line2];
      } else if pci == Single && SingleFrameLength(f) != 0 {
        w.Bytes(bytes);
      } else if pci == Consecutive {
        w.Raw([Digit(f.data[0]), ':']);
        w.Bytes(bytes);
      } else if !monitor {
        return [];
      } else if pci == FlowControl {
        w.Raw("FC:");
        w.Bytes(f.data);
      } else {
        w.Bytes(f.data);
        w.Raw(" <DATA ERROR");
      }
      assert w.full == want[0];
      var line := w.Line();
      return [line];
    }
  }
}
