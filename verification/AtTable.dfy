/** AT command matching (lib/elm/src/at_table.h and at_table.cpp): a row matches if
    the body is its name followed by arguments of its shape, and the longest name wins. */
module AtTable {
  import opened CanTypes
  import opened WriteGuard

  datatype Shape =
    | NoArgs | Bit | Digit012 | Hex2 | Dec4 | Header | Bytes1to5 | Bytes1to6
    | Pattern | ProtoSel | TierWord

  datatype Args = Args(value: uint32, mask: uint32, bytes: seq<byte>, count: nat, automatic: bool, tier: Tier)

  const NO_ARGS := Args(0, 0, [], 0, false, Read)

  // ---------- Arguments ----------

  function HexDigit(c: char): (d: Option<nat>)
    ensures d.Some? ==> d.value < 16
  {
    if '0' <= c <= '9' then Some(c as int - '0' as int)
    else if 'A' <= c <= 'F' then Some(c as int - 'A' as int + 10)
    else None
  }

  /** The value of a run of hex digits. */
  function Hex(s: string): (v: Option<nat>)
    ensures v.Some? ==> v.value < Power16(|s|)
  {
    if s == "" then Some(0)
    else
      var front, d := Hex(s[..|s| - 1]), HexDigit(s[|s| - 1]);
      if front.Some? && d.Some? then Some(16 * front.value + d.value) else None
  }

  function Power16(n: nat): nat { if n == 0 then 1 else 16 * Power16(n - 1) }

  lemma EightDigits(n: nat)
    requires n <= 8
    ensures Power16(n) <= WORD
    ensures n <= 6 ==> Power16(n) <= 0x100_0000
    ensures n <= 3 ==> Power16(n) <= 0x1000
    ensures n <= 2 ==> Power16(n) <= 0x100
  {
    assert Power16(2) == 0x100 && Power16(3) == 0x1000 && Power16(6) == 0x100_0000 && Power16(8) == WORD;
    PowerGrows(n, 8);
    if n <= 6 { PowerGrows(n, 6); }
    if n <= 3 { PowerGrows(n, 3); }
    if n <= 2 { PowerGrows(n, 2); }
  }

  lemma PowerGrows(m: nat, n: nat)
    requires m <= n
    ensures Power16(m) <= Power16(n)
  {
  }

  method ParseHex(s: string) returns (v: Option<uint32>)
    requires |s| <= 8
    ensures v == HexWord(s)
  {
    var n := 0;
    for i := 0 to |s|
      invariant Hex(s[..i]) == Some(n)
    {
      assert s[..i + 1][..i] == s[..i];
      var d := HexDigit(s[i]);
      if d.None? {
        HexStops(s, i + 1);
        return None;
      }
      n := 16 * n + d.value;
    }
    assert s[..|s|] == s;
    EightDigits(|s|);
    return Some(n);
  }

  lemma {:induction false} HexStops(s: string, i: nat)
    requires i <= |s| && Hex(s[..i]).None?
    ensures Hex(s).None?
    decreases |s|
  {
    if i < |s| {
      assert s[..|s| - 1][..i] == s[..i];
      HexStops(s[..|s| - 1], i);
    } else {
      assert s[..i] == s;
    }
  }

  function HexWord(s: string): (v: Option<uint32>)
    requires |s| <= 8
  {
    EightDigits(|s|);
    var v := Hex(s);
    if v.Some? then Some(v.value) else None
  }

  function HexBytes(s: string): (r: Option<seq<byte>>)
    requires |s| % 2 == 0
    ensures r.Some? ==> |r.value| == |s| / 2
  {
    if s == "" then Some([])
    else
      var front, b := HexBytes(s[..|s| - 2]), HexWord(s[|s| - 2..]);
      if front.Some? && b.Some? then EightDigits(2); assert Power16(2) == 256; Some(front.value + [b.value]) else None
  }

  /** X marks a free digit: the value of the others, and the mask that selects them. */
  function PatternBits(s: string): (r: Option<(nat, nat)>)
    ensures r.Some? ==> r.value.0 < Power16(|s|) && r.value.1 < Power16(|s|)
  {
    if s == "" then Some((0, 0))
    else
      var front, c := PatternBits(s[..|s| - 1]), s[|s| - 1];
      if front.None? then None
      else if c == 'X' then Some((16 * front.value.0, 16 * front.value.1))
      else if HexDigit(c).Some? then
        Some((16 * front.value.0 + HexDigit(c).value, 16 * front.value.1 + 15))
      else None
  }

  method ParsePattern(s: string) returns (r: Option<(nat, nat)>)
    ensures r == PatternBits(s)
  {
    var value, mask := 0, 0;
    for i := 0 to |s|
      invariant PatternBits(s[..i]) == Some((value, mask))
    {
      assert s[..i + 1][..i] == s[..i];
      value, mask := value * 16, mask * 16;
      if s[i] != 'X' {
        var d := HexDigit(s[i]);
        if d.None? {
          PatternStops(s, i + 1);
          return None;
        }
        value, mask := value + d.value, mask + 15;
      }
    }
    assert s[..|s|] == s;
    return Some((value, mask));
  }

  lemma {:induction false} PatternStops(s: string, i: nat)
    requires i <= |s| && PatternBits(s[..i]).None?
    ensures PatternBits(s).None?
    decreases |s|
  {
    if i < |s| {
      assert s[..|s| - 1][..i] == s[..i];
      PatternStops(s[..|s| - 1], i);
    } else {
      assert s[..i] == s;
    }
  }

  function Decimal(s: string): (v: Option<nat>)
    ensures v.Some? ==> |s| <= 4 ==> v.value < 10000
  {
    if |s| == 4 && forall i :: 0 <= i < 4 ==> '0' <= s[i] <= '9' then
      Some(((s[0] as int - 48) * 10 + (s[1] as int - 48)) * 100 + (s[2] as int - 48) * 10 + (s[3] as int - 48))
    else None
  }

  function ParseTier(s: string): (t: Option<Tier>)
    ensures t.Some? ==> s == TierText(t.value)
  {
    if s == TierText(Read) then Some(Read) else if s == TierText(Clear) then Some(Clear)
    else if s == TierText(Write) then Some(Write) else None
  }

  function ParseProtocol(s0: string): Option<Args> {
    var s := if s0 == "00" then "0" else s0;
    var automatic := s != "" && s[0] == 'A';
    var digit := if automatic then s[1..] else s;
    if |digit| != 1 || !('0' <= digit[0] <= '9') then None
    else
      var v := digit[0] as int - '0' as int;
      Some(NO_ARGS.(value := v, automatic := automatic || v == 0))
  }

  function ParseBytes(s: string, most: nat): Option<Args> {
    if s == "" || |s| % 2 != 0 || |s| / 2 > most then None
    else
      var b := HexBytes(s);
      if b.Some? then Some(NO_ARGS.(bytes := b.value, count := |b.value|)) else None
  }

  /** The arguments, if `s` has the shape. */
  function ParseShape(shape: Shape, s: string): Option<Args> {
    match shape
    case NoArgs => if s == "" then Some(NO_ARGS) else None
    case Bit => if |s| == 1 && '0' <= s[0] <= '1' then Some(NO_ARGS.(value := s[0] as int - '0' as int)) else None
    case Digit012 => if |s| == 1 && '0' <= s[0] <= '2' then Some(NO_ARGS.(value := s[0] as int - '0' as int)) else None
    case Hex2 =>
      var v := if |s| == 2 then HexWord(s) else None;
      if v.Some? then Some(NO_ARGS.(value := v.value)) else None
    case Dec4 =>
      var v := if |s| == 4 then Decimal(s) else None;
      if v.Some? then Some(NO_ARGS.(value := v.value)) else None
    case Header =>
      var v := if |s| == 3 || |s| == 6 || |s| == 8 then HexWord(s) else None;
      if v.Some? then Some(NO_ARGS.(value := v.value, count := |s|)) else None
    case Bytes1to5 => ParseBytes(s, 5)
    case Bytes1to6 => ParseBytes(s, 6)
    case Pattern =>
      var v := if |s| == 3 || |s| == 8 then PatternBits(s) else None;
      if v.Some? then EightDigits(|s|); Some(NO_ARGS.(value := v.value.0, mask := v.value.1, count := |s|)) else None
    case ProtoSel => ParseProtocol(s)
    case TierWord =>
      var t := ParseTier(s);
      if t.Some? then Some(NO_ARGS.(tier := t.value)) else None
  }

  /** What a parsed argument is bound to satisfy. */
  predicate ArgsFit(shape: Shape, a: Args) {
    match shape
    case Bit => a.value <= 1
    case Digit012 => a.value <= 2
    case Hex2 => a.value < 0x100
    case Header =>
      (a.count == 3 && a.value < 0x1000) || (a.count == 6 && a.value < 0x100_0000) || a.count == 8
    case Bytes1to5 => 1 <= |a.bytes| <= 5
    case ProtoSel => a.value <= 9 && (a.value == 0 ==> a.automatic)
    case _ => true
  }

  lemma ParsedArgsFit(shape: Shape, s: string)
    requires ParseShape(shape, s).Some?
    ensures ArgsFit(shape, ParseShape(shape, s).value)
  {
    hide Hex, HexBytes, PatternBits;
    if |s| <= 8 { EightDigits(|s|); }
  }

  // ---------- The rows ----------

  datatype Row =
    | Blank | Z | Ws | Defaults | I | At1 | Rv | E | L | S | H | R | V | Dlc | Caf | Cfc | Al | Nl
    | Adaptive | St | Sh | Cp | Sp | Tp | Dp | Dpn | Pc | Ar | Cra | CraPattern | Cf | Cm | Fcsh
    | Fcsd | Fcsm | Ma | Cs | M | Csm | Cea | Cv | Ib | Sw | Iia | Wm | Kw | KwBit | Bi | Ss | Si
    | Fi | GuardShow | GuardSet | Wifi | Survey | SelfTest

  function Name(r: Row): string {
    match r
    case Blank => ""
    case Z => "Z"
    case Ws => "WS"
    case Defaults => "D"
    case I => "I"
    case At1 => "@1"
    case Rv => "RV"
    case E => "E"
    case L => "L"
    case S => "S"
    case H => "H"
    case R => "R"
    case V => "V"
    case Dlc => "D"
    case Caf => "CAF"
    case Cfc => "CFC"
    case Al => "AL"
    case Nl => "NL"
    case Adaptive => "AT"
    case St => "ST"
    case Sh => "SH"
    case Cp => "CP"
    case Sp => "SP"
    case Tp => "TP"
    case Dp => "DP"
    case Dpn => "DPN"
    case Pc => "PC"
    case Ar => "AR"
    case Cra => "CRA"
    case CraPattern => "CRA"
    case Cf => "CF"
    case Cm => "CM"
    case Fcsh => "FCSH"
    case Fcsd => "FCSD"
    case Fcsm => "FCSM"
    case Ma => "MA"
    case Cs => "CS"
    case M => "M"
    case Csm => "CSM"
    case Cea => "CEA"
    case Cv => "CV"
    case Ib => "IB"
    case Sw => "SW"
    case Iia => "IIA"
    case Wm => "WM"
    case Kw => "KW"
    case KwBit => "KW"
    case Bi => "BI"
    case Ss => "SS"
    case Si => "SI"
    case Fi => "FI"
    case GuardShow => "#GUARD"
    case GuardSet => "#GUARD"
    case Wifi => "#WIFI"
    case Survey => "#SURVEY"
    case SelfTest => "#SELFTEST"
  }

  function ShapeOf(r: Row): Shape {
    match r
    case E => Bit case L => Bit case S => Bit case H => Bit case R => Bit case V => Bit
    case Dlc => Bit case Caf => Bit case Cfc => Bit case M => Bit case Csm => Bit case KwBit => Bit
    case Adaptive => Digit012 case Fcsm => Digit012
    case St => Hex2 case Cp => Hex2 case Ib => Hex2 case Sw => Hex2 case Iia => Hex2
    case Sh => Header case Cf => Header case Cm => Header case Fcsh => Header
    case Sp => ProtoSel case Tp => ProtoSel
    case CraPattern => Pattern
    case Fcsd => Bytes1to5
    case Cv => Dec4
    case Wm => Bytes1to6
    case GuardSet => TierWord
    case _ => NoArgs
  }

  const ROWS: seq<Row> :=
    [Blank, Z, Ws, Defaults, I, At1, Rv, E, L, S, H, R, V]
    + [Dlc, Caf, Cfc, Al, Nl, Adaptive, St, Sh, Cp, Sp, Tp, Dp, Dpn, Pc]
    + [Ar, Cra, CraPattern, Cf, Cm, Fcsh, Fcsd, Fcsm, Ma, Cs, M, Csm, Cea, Cv]
    + [Ib, Sw, Iia, Wm, Kw, KwBit, Bi, Ss, Si, Fi, GuardShow, GuardSet, Wifi, Survey, SelfTest]

  function RowOf(s: string, noArgs: bool): Row {
    if |s| == 0 then
      Blank
    else if |s| == 1 then
      if s[0] == 'Z' then Z
      else if s[0] == 'D' then (if noArgs then Defaults else Dlc)
      else if s[0] == 'I' then I
      else if s[0] == 'E' then E
      else if s[0] == 'L' then L
      else if s[0] == 'S' then S
      else if s[0] == 'H' then H
      else if s[0] == 'R' then R
      else if s[0] == 'V' then V
      else if s[0] == 'M' then M
      else Blank
    else if |s| == 2 then
      if s[0] == 'W' && s[1] == 'S' then Ws
      else if s[0] == '@' && s[1] == '1' then At1
      else if s[0] == 'R' && s[1] == 'V' then Rv
      else if s[0] == 'A' && s[1] == 'L' then Al
      else if s[0] == 'N' && s[1] == 'L' then Nl
      else if s[0] == 'A' && s[1] == 'T' then Adaptive
      else if s[0] == 'S' && s[1] == 'T' then St
      else if s[0] == 'S' && s[1] == 'H' then Sh
      else if s[0] == 'C' && s[1] == 'P' then Cp
      else if s[0] == 'S' && s[1] == 'P' then Sp
      else if s[0] == 'T' && s[1] == 'P' then Tp
      else if s[0] == 'D' && s[1] == 'P' then Dp
      else if s[0] == 'P' && s[1] == 'C' then Pc
      else if s[0] == 'A' && s[1] == 'R' then Ar
      else if s[0] == 'C' && s[1] == 'F' then Cf
      else if s[0] == 'C' && s[1] == 'M' then Cm
      else if s[0] == 'M' && s[1] == 'A' then Ma
      else if s[0] == 'C' && s[1] == 'S' then Cs
      else if s[0] == 'C' && s[1] == 'V' then Cv
      else if s[0] == 'I' && s[1] == 'B' then Ib
      else if s[0] == 'S' && s[1] == 'W' then Sw
      else if s[0] == 'W' && s[1] == 'M' then Wm
      else if s[0] == 'K' && s[1] == 'W' then (if noArgs then Kw else KwBit)
      else if s[0] == 'B' && s[1] == 'I' then Bi
      else if s[0] == 'S' && s[1] == 'S' then Ss
      else if s[0] == 'S' && s[1] == 'I' then Si
      else if s[0] == 'F' && s[1] == 'I' then Fi
      else Blank
    else if |s| == 3 then
      if s[0] == 'C' && s[1] == 'A' && s[2] == 'F' then Caf
      else if s[0] == 'C' && s[1] == 'F' && s[2] == 'C' then Cfc
      else if s[0] == 'D' && s[1] == 'P' && s[2] == 'N' then Dpn
      else if s[0] == 'C' && s[1] == 'R' && s[2] == 'A' then (if noArgs then Cra else CraPattern)
      else if s[0] == 'C' && s[1] == 'S' && s[2] == 'M' then Csm
      else if s[0] == 'C' && s[1] == 'E' && s[2] == 'A' then Cea
      else if s[0] == 'I' && s[1] == 'I' && s[2] == 'A' then Iia
      else Blank
    else if |s| == 4 then
      if s[0] == 'F' && s[1] == 'C' && s[2] == 'S' && s[3] == 'H' then Fcsh
      else if s[0] == 'F' && s[1] == 'C' && s[2] == 'S' && s[3] == 'D' then Fcsd
      else if s[0] == 'F' && s[1] == 'C' && s[2] == 'S' && s[3] == 'M' then Fcsm
      else Blank
    else if |s| == 5 then
      if s[0] == '#' && s[1] == 'W' && s[2] == 'I' && s[3] == 'F' && s[4] == 'I' then Wifi
      else Blank
    else if |s| == 6 then
      if s[0] == '#' && s[1] == 'G' && s[2] == 'U' && s[3] == 'A' && s[4] == 'R' && s[5] == 'D' then
        (if noArgs then GuardShow else GuardSet)
      else Blank
    else if |s| == 7 then
      if s[0] == '#' && s[1] == 'S' && s[2] == 'U' && s[3] == 'R' && s[4] == 'V' && s[5] == 'E' && s[6] == 'Y' then
        Survey
      else Blank
    else if |s| == 9 then
      if s[0] == '#' && s[1] == 'S' && s[2] == 'E' && s[3] == 'L' && s[4] == 'F' && s[5] == 'T' && s[6] == 'E'
         && s[7] == 'S' && s[8] == 'T' then
        SelfTest
      else Blank
    else Blank
  }

  // ---------- Matching ----------

  function Matches(r: Row, body: string): Option<Args> {
    if Name(r) <= body then ParseShape(ShapeOf(r), body[|Name(r)|..]) else None
  }

  /** The row found is a match, and no match has a longer name. */
  predicate IsBest(rows: seq<Row>, body: string, r: Row) {
    r in rows && Matches(r, body).Some?
    && forall other :: other in rows && Matches(other, body).Some? ==> |Name(other)| <= |Name(r)|
  }

  datatype Found = NoRow | Found(row: Row, args: Args)

  /** `found` is the best row with its arguments, or no row matches. */
  predicate Finds(rows: seq<Row>, body: string, found: Found) {
    match found
    case NoRow => forall r :: r in rows ==> Matches(r, body).None?
    case Found(row, args) => IsBest(rows, body, row) && Matches(row, body) == Some(args)
  }

  method FindAt(rows: seq<Row>, body: string) returns (found: Found)
    ensures Finds(rows, body, found)
  {
    hide Name, ShapeOf, ParseShape;
    found := NoRow;
    for i := 0 to |rows|
      invariant Finds(rows[..i], body, found)
    {
      var row := rows[i];
      var n := |Name(row)|;
      if Name(row) <= body && (found.NoRow? || n > |Name(found.row)|) {
        var parsed := ParseShape(ShapeOf(row), body[n..]);
        if parsed.Some? { found := Found(row, parsed.value); }
      }
    }
    assert rows[..|rows|] == rows;
  }

  lemma RowOfPairName(r: Row)
    requires ShapeOf(r).NoArgs? && |Name(r)| == 2
    ensures RowOf(Name(r), true) == r
  {
    match r
    case Ws => case At1 => case Rv => case Al => case Nl => case Dp => case Pc => case Ar => case Ma => case Cs =>
    case Kw => case Bi => case Ss => case Si => case Fi => case _ =>
  }

  lemma RowOfPlainName(r: Row)
    requires ShapeOf(r).NoArgs? && |Name(r)| != 2
    ensures RowOf(Name(r), true) == r
  {
    match r
    case Blank => case Z => case Defaults => case I => case Dpn => case Cra => case Cea =>
    case GuardShow => case Wifi => case Survey => case SelfTest => case _ =>
  }

  lemma RowOfFlagName(r: Row)
    requires ShapeOf(r).Bit?
    ensures RowOf(Name(r), ShapeOf(r).NoArgs?) == r
  {
    match r
    case E => case L => case S => case H => case R => case V => case Dlc => case Caf => case Cfc => case M =>
    case Csm => case KwBit => case _ =>
  }

  lemma RowOfValueName(r: Row)
    requires !ShapeOf(r).NoArgs? && !ShapeOf(r).Bit?
    ensures RowOf(Name(r), ShapeOf(r).NoArgs?) == r
  {
    match r
    case Adaptive => case St => case Sh => case Cp => case Sp => case Tp => case CraPattern => case Cf =>
    case Cm => case Fcsh => case Fcsd => case Fcsm => case Cv => case Ib => case Sw => case Iia => case Wm =>
    case GuardSet => case _ =>
  }

  /** A name, and whether the row takes arguments, determine the row. */
  lemma RowOfName(r: Row)
    ensures RowOf(Name(r), ShapeOf(r).NoArgs?) == r
  {
    hide Name, ShapeOf, RowOf;
    match ShapeOf(r)
    case NoArgs => if |Name(r)| == 2 { RowOfPairName(r); } else { RowOfPlainName(r); }
    case Bit => RowOfFlagName(r);
    case _ => RowOfValueName(r);
  }

  /** Two rows of the same name never both match: one takes no arguments, the other needs some. */
  lemma SameNameSameRow(a: Row, b: Row, body: string)
    requires Matches(a, body).Some? && Matches(b, body).Some? && |Name(a)| == |Name(b)|
    ensures a == b
  {
    hide Name, ShapeOf, RowOf;
    RowOfName(a);
    RowOfName(b);
    assert Name(a) == body[..|Name(a)|] == Name(b);
  }

  /** Main result: matching does not depend on the order of the rows. Any two tables with the same
      rows, in whatever order, find the same for every body: the same row with the same arguments, or
      none. */
  lemma OrderIrrelevant(rows: seq<Row>, other: seq<Row>, body: string, a: Found, b: Found)
    requires multiset(rows) == multiset(other) && Finds(rows, body, a) && Finds(other, body, b)
    ensures a == b
  {
    hide Matches, Name;
    assert forall r :: r in rows <==> r in multiset(rows);
    assert forall r :: r in other <==> r in multiset(other);
    if a.Found? && b.Found? { SameNameSameRow(a.row, b.row, body); }
  }

  /** The row found is the only longest match. */
  lemma BestIsUnique(rows: seq<Row>, body: string, best: Row, r: Row)
    requires IsBest(rows, body, best) && r in rows && Matches(r, body).Some? && r != best
    ensures |Name(r)| < |Name(best)|
  {
    if |Name(r)| == |Name(best)| { SameNameSameRow(r, best, body); }
  }
}
