/** What is typed: the line buffer and hex requests (lib/elm/src/text.cpp). */
module Input {
  import opened CanTypes
  import AtTable

  const LINE_LIMIT := 64

  datatype LineState = LineState(text: string, invalid: bool)

  function PushByte(l: LineState, raw: byte): LineState {
    if raw == 0x20 || raw < 0x20 then l
    else if raw >= 0x7F || |l.text| >= LINE_LIMIT then l.(invalid := true)
    else
      var c := raw as char;
      l.(text := l.text + [if 'a' <= c <= 'z' then (raw - 32) as char else c])
  }

  /** The line that a run of bytes leaves in the buffer. */
  function LineOf(bytes: seq<byte>): (l: LineState)
    ensures |l.text| <= LINE_LIMIT
  {
    if bytes == [] then LineState("", false) else PushByte(LineOf(bytes[..|bytes| - 1]), bytes[|bytes| - 1])
  }

  /** The bytes that count as typed: printable, and no blank. */
  function Printable(bytes: seq<byte>): seq<byte> {
    if bytes == [] then []
    else
      var b := bytes[|bytes| - 1];
      Printable(bytes[..|bytes| - 1]) + (if 0x21 <= b <= 0x7E then [b] else [])
  }

  function UpperCase(c: char): char { if 'a' <= c <= 'z' then (c as int - 32) as char else c }

  /** Main result: the line is what was typed in printable characters, in capitals, the first 64 of them; it is
      valid exactly if there were no more, and no byte above 7E. */
  lemma {:induction false} LineIsTyped(bytes: seq<byte>)
    ensures var l, typed := LineOf(bytes), Printable(bytes);
      |l.text| == (if |typed| <= 64 then |typed| else 64)
      && (forall i :: 0 <= i < |l.text| ==> l.text[i] == UpperCase(typed[i] as char))
      && (l.invalid <==> |typed| > 64 || exists b :: b in bytes && b > 0x7E)
  {
    hide UpperCase;
    if bytes != [] {
      var front, b := bytes[..|bytes| - 1], bytes[|bytes| - 1];
      LineIsTyped(front);
      OneMoreByte(LineOf(front), b);
      assert bytes == front + [b];
      assert (exists x :: x in bytes && x > 0x7E) <==> b > 0x7E || exists x :: x in front && x > 0x7E by {
        assert b in bytes;
        if x :| x in front && x > 0x7E { assert x in bytes; }
      }
    }
  }

  lemma OneMoreByte(l: LineState, b: byte)
    requires |l.text| <= 64
    ensures PushByte(l, b)
      == if b < 0x21 then l
         else if b > 0x7E || |l.text| == 64 then LineState(l.text, true)
         else LineState(l.text + [UpperCase(b as char)], l.invalid)
  {
  }

  class LineBuffer {
    const buf: array<char>
    var len: nat
    var invalid: bool
    /** The bytes pushed since the last clear. */
    ghost var pushed: seq<byte>

    ghost predicate Valid()
      reads this, buf
    {
      buf.Length == LINE_LIMIT + 1 && len <= LINE_LIMIT
      && LineState(buf[..len], invalid) == LineOf(pushed)
    }

    constructor ()
      ensures Valid() && fresh(buf) && pushed == []
    {
      buf := new char[LINE_LIMIT + 1];
      len, invalid, pushed := 0, false, [];
    }

    method Push(raw: byte)
      requires Valid()
      modifies this, buf
      ensures Valid() && pushed == old(pushed) + [raw]
    {
      pushed := pushed + [raw];
      assert pushed[..|pushed| - 1] == old(pushed);
      if raw == 0x20 || raw < 0x20 { return; }
      if raw >= 0x7F || len >= LINE_LIMIT {
        invalid := true;
        return;
      }
      var c := raw as char;
      if 'a' <= c <= 'z' { c := (raw - 32) as char; }
      buf[len] := c;
      len := len + 1;
    }

    method Clear()
      requires Valid()
      modifies this
      ensures Valid() && pushed == []
    {
      len, invalid, pushed := 0, false, [];
    }

    method Text() returns (s: string)
      requires Valid()
      ensures s == LineOf(pushed).text
    {
      s := buf[..len];
    }
  }

  /** `maxResponses` is -1 without a count digit. */
  datatype HexRequest = HexRequest(bytes: seq<byte>, maxResponses: int)

  /** Hex digits only; an odd count makes the last digit the response count. */
  function ParseRequest(line: string, caf: bool): (r: Option<HexRequest>)
    ensures r.Some? ==> 1 <= |r.value.bytes| <= (if caf then 7 else 8) && -1 <= r.value.maxResponses <= 15
  {
    if |line| > 17 || |line| == 1 || exists i :: 0 <= i < |line| && AtTable.HexDigit(line[i]).None? then None
    else
      var n := |line| / 2 * 2;
      var digit := if |line| % 2 == 1 then AtTable.HexDigit(line[|line| - 1]).value else -1;
      var bytes := AtTable.HexBytes(line[..n]);
      if bytes.None? || |bytes.value| == 0 || |bytes.value| > (if caf then 7 else 8) then None
      else Some(HexRequest(bytes.value, digit))
  }
}
