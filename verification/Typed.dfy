/** What the AT commands that set something mean (lib/elm/src/at_table.cpp, lib/elm/src/settings.cpp), from
    the text the user types to the one thing that it changes. */
module Typed {
  import opened CanTypes
  import opened Config
  import opened AtTable
  import opened Commands
  import opened Conversation
  import opened Record
  import opened Replies
  import opened ReplyText
  import Text
  import WriteGuard

  // ---------- The row that a line finds ----------

  /** No prefix of the body longer than `n` is the name of a row. */
  predicate NoLongerName(body: string, n: nat) {
    forall m :: n < m <= |body| ==> RowOf(body[..m], true) == Blank && RowOf(body[..m], false) == Blank
  }

  /** No row with a longer name matches. */
  ghost predicate NoneLonger(body: string, n: nat) {
    forall r :: Matches(r, body).Some? ==> |Name(r)| <= n
  }

  lemma NamesDecide(body: string, n: nat)
    requires NoLongerName(body, n)
    ensures NoneLonger(body, n)
  {
    hide Matches, Name, RowOf;
    forall r | Matches(r, body).Some? ensures |Name(r)| <= n {
      MatchIsPrefix(r, body);
      RowOfName(r);
      BlankHasNoName();
    }
  }

  /** A matching row is the one found if none with a longer name matches. */
  lemma RowFound(body: string, r: Row, x: Args, found: Found)
    requires Finds(ROWS, body, found) && r in ROWS && Matches(r, body) == Some(x) && NoneLonger(body, |Name(r)|)
    ensures found == Found.Found(r, x)
  {
    hide Matches, Name;
    assert found.Found?;
    SameNameSameRow(found.row, r, body);
  }

  lemma MatchIsPrefix(r: Row, body: string)
    requires Matches(r, body).Some?
    ensures |Name(r)| <= |body| && body[..|Name(r)|] == Name(r)
  {
  }

  lemma BlankHasNoName()
    ensures Name(Blank) == ""
  {
  }

  function IndexOf(r: Row): (i: nat)
    ensures i < |ROWS| && ROWS[i] == r
  {
    match r
    case Blank => 0 case Z => 1 case Ws => 2 case Defaults => 3 case I => 4 case At1 => 5 case Rv => 6 case E => 7
    case L => 8 case S => 9 case H => 10 case R => 11 case V => 12 case Dlc => 13 case Caf => 14 case Cfc => 15
    case Al => 16 case Nl => 17 case Adaptive => 18 case St => 19 case Sh => 20 case Cp => 21 case Sp => 22
    case Tp => 23 case Dp => 24 case Dpn => 25 case Pc => 26 case Ar => 27 case Cra => 28 case CraPattern => 29
    case Cf => 30 case Cm => 31 case Fcsh => 32 case Fcsd => 33 case Fcsm => 34 case Ma => 35 case Cs => 36
    case M => 37 case Csm => 38 case Cea => 39 case Cv => 40 case Ib => 41 case Sw => 42 case Iia => 43 case Wm => 44
    case Kw => 45 case KwBit => 46 case Bi => 47 case Ss => 48 case Si => 49 case Fi => 50 case GuardShow => 51
    case GuardSet => 52 case Wifi => 53 case Survey => 54 case SelfTest => 55
  }

  /** The line only set something: these are the settings and the stored protocol after it, and OK was
      printed with the line end they give, if they could be set. */
  predicate SetTo(a: Moment, b: Moment, settings: Settings, stored: ProtocolSel, ok: bool) {
    b.settings == settings && b.stored == stored && b.log == a.log && b.last == a.last && b.open == a.open
    && b.sum.session.output
       == a.sum.session.output + (if ok then "OK" else "?") + (if settings.linefeeds then "\r\n" else "\r")
  }

  ghost predicate Silent(r: Row) { forall sel, tier :: InfoLine(r, sel, tier).None? }

  /** A line that is a row of this kind. */
  lemma RowTyped(a: Moment, b: Moment, body: string, r: Row, x: Args, d: Deed)
    requires LineDid(a, b, "AT" + body, d) && Matches(r, body) == Some(x) && NoneLonger(body, |Name(r)|)
    requires !Active(r) && Silent(r) && ArgsFit(ShapeOf(r), x)
    ensures SetTo(a, b, SettingsAfter(a.settings, a.stored, r, x), if r.Sp? then Selection(x) else a.stored,
                  r.Sp? || Changed(a.settings, r, x).Some?)
  {
    hide Matches, Name, NoneLonger, ArgsFit, ShapeOf, SettingsAfter, Changed, InfoLine, AtDid, Active, RowDid, SetTo;
    AtTyped(a, b, body, d);
    RowRan(Commands.Starting(a, "AT" + body), b, body, r, x, d);
    SetSince(a, "AT" + body, b, SettingsAfter(a.settings, a.stored, r, x), if r.Sp? then Selection(x) else a.stored,
             r.Sp? || Changed(a.settings, r, x).Some?);
  }

  lemma AtTyped(a: Moment, b: Moment, body: string, d: Deed)
    requires LineDid(a, b, "AT" + body, d)
    ensures AtDid(Commands.Starting(a, "AT" + body), b, body, d)
  {
    hide AtDid, RequestDid, Told;
    var line := "AT" + body;
    assert IsAt(line) && line[2..] == body;
  }

  lemma SetSince(a: Moment, line: string, b: Moment, settings: Settings, stored: ProtocolSel, ok: bool)
    requires SetTo(Commands.Starting(a, line), b, settings, stored, ok)
    ensures SetTo(a, b, settings, stored, ok)
  {
  }

  lemma RowRan(m: Moment, b: Moment, body: string, r: Row, x: Args, d: Deed)
    requires AtDid(m, b, body, d) && Matches(r, body) == Some(x) && NoneLonger(body, |Name(r)|)
    requires !Active(r) && Silent(r) && ArgsFit(ShapeOf(r), x)
    ensures SetTo(m, b, SettingsAfter(m.settings, m.stored, r, x), if r.Sp? then Selection(x) else m.stored,
                  r.Sp? || Changed(m.settings, r, x).Some?)
  {
    hide AtDid, Matches, Name, NoneLonger, ArgsFit, ShapeOf, SettingsAfter, Changed, Active, RowDid;
    RowIsRun(m, b, body, r, x, d);
    RowPassive(m, d.mid, r, x, d.reply, d.row);
    RowSets(m, d.mid, r, x, d.reply);
  }

  /** The row that matches is the one that ran. */
  lemma RowIsRun(m: Moment, b: Moment, body: string, r: Row, x: Args, d: Deed)
    requires AtDid(m, b, body, d) && Matches(r, body) == Some(x) && NoneLonger(body, |Name(r)|)
    ensures d.Looked? && RowDid(m, d.mid, r, x, d.reply, d.row)
    ensures if d.reply == Printed then b == d.mid
            else Told(d.mid, b, (if d.reply == Ok then "OK" else "?") + EndOf(d.mid))
  {
    hide Matches, Name, NoneLonger, RowDid, Finds, Told, EndOf;
    RowIsThere(r);
    RowFound(body, r, x, d.found);
  }

  lemma RowIsThere(r: Row)
    ensures r in ROWS
  {
    assert ROWS[IndexOf(r)] == r;
  }

  lemma RowPassive(m: Moment, mid: Moment, r: Row, x: Args, reply: AtReply, d: RowDeed)
    requires RowDid(m, mid, r, x, reply, d) && !Active(r)
    ensures PassiveDid(m, mid, r, x, reply)
  {
    hide ActiveDid, PassiveDid, Active;
  }

  lemma RowSets(m: Moment, mid: Moment, r: Row, x: Args, reply: AtReply)
    requires PassiveDid(m, mid, r, x, reply) && Silent(r) && ArgsFit(ShapeOf(r), x)
    ensures reply == (if r.Sp? || Changed(m.settings, r, x).Some? then Ok else Bad)
    ensures mid
      == m.(settings := SettingsAfter(m.settings, m.stored, r, x), stored := if r.Sp? then Selection(x) else m.stored)
  {
    hide InfoLine, ArgsFit, ShapeOf, SettingsAfter, Changed;
    assert InfoLine(r, m.settings.protocol, m.sum.session.tier).None?;
  }

  // ---------- Flags ----------

  function BitText(on: bool): string { if on then "1" else "0" }

  /** A name of letters followed by a digit is no longer name. */
  lemma NoNameEndsInDigit(body: string, n: nat)
    requires |body| == n + 1 && body[0] != '@' && '0' <= body[n] <= '9'
    ensures NoneLonger(body, n)
  {
    assert body[..n + 1] == body;
    NamesDecide(body, n);
  }

  lemma BitRow(r: Row, on: bool)
    requires ShapeOf(r).Bit?
    ensures Matches(r, Name(r) + BitText(on)) == Some(NO_ARGS.(value := if on then 1 else 0))
    ensures NoneLonger(Name(r) + BitText(on), |Name(r)|) && !Active(r) && Silent(r)
  {
    hide NoneLonger;
    var body := Name(r) + BitText(on);
    assert body[|Name(r)|..] == BitText(on);
    NoNameEndsInDigit(body, |Name(r)|);
  }

  lemma BitTyped(a: Moment, b: Moment, r: Row, on: bool, d: Deed)
    requires ShapeOf(r).Bit? && LineDid(a, b, "AT" + (Name(r) + BitText(on)), d)
    ensures SetTo(a, b, WithFlag(a.settings, r, on), a.stored, true)
  {
    hide Matches, Name, NoneLonger, SetTo, LineDid, InfoLine, WithFlag;
    BitRow(r, on);
    var x := NO_ARGS.(value := if on then 1 else 0);
    RowTyped(a, b, Name(r) + BitText(on), r, x, d);
    BitChanges(a.settings, a.stored, r, on);
  }

  lemma BitChanges(s: Settings, stored: ProtocolSel, r: Row, on: bool)
    requires ShapeOf(r).Bit?
    ensures var x := NO_ARGS.(value := if on then 1 else 0);
      ArgsFit(ShapeOf(r), x) && Changed(s, r, x) == Some(WithFlag(s, r, on))
      && SettingsAfter(s, stored, r, x) == WithFlag(s, r, on)
  {
    hide WithFlag, WithValue, FilterAfter, FlowAfter;
    var x := NO_ARGS.(value := if on then 1 else 0);
    OnlyAFlag(WithFlag(s, r, on), s, r, x);
    FlagKeeps(s, r, on);
    SameParts(WithFlag(s, r, on), s.rx, s.fc);
  }

  lemma OnlyAFlag(t: Settings, s: Settings, r: Row, x: Args)
    requires ShapeOf(r).Bit? && ArgsFit(ShapeOf(r), x)
    ensures WithValue(t, r, x) == t && FilterAfter(s.rx, r, x) == s.rx && FlowAfter(s.fc, r, x) == Some(s.fc)
    ensures !r.Sp? && !r.Z? && !r.Ws? && !r.Defaults?
  {
  }

  lemma FlagKeeps(s: Settings, r: Row, on: bool)
    ensures var t := WithFlag(s, r, on); t.rx == s.rx && t.fc == s.fc
  {
    match r
    case E => case L => case S => case H => case R => case V => case Dlc => case Caf => case Cfc => case Al => case Nl =>
    case _ =>
  }

  lemma SameParts(t: Settings, rx: RxFilter, fc: FlowSettings)
    requires t.rx == rx && t.fc == fc
    ensures t.(rx := rx, fc := fc) == t
  {
  }

  /** Main result: AT, the letter of a flag, and 1 or 0 turn on or off what the letter stands for; nothing
      else is set. */
  lemma FlagTyped(a: Moment, b: Moment, letter: char, on: bool, d: Deed)
    requires LineDid(a, b, "AT" + ([letter] + if on then "1" else "0"), d)
    ensures letter == 'E' ==> SetTo(a, b, a.settings.(echo := on), a.stored, true)
    ensures letter == 'L' ==> SetTo(a, b, a.settings.(linefeeds := on), a.stored, true)
    ensures letter == 'S' ==> SetTo(a, b, a.settings.(spaces := on), a.stored, true)
    ensures letter == 'H' ==> SetTo(a, b, a.settings.(headers := on), a.stored, true)
    ensures letter == 'R' ==> SetTo(a, b, a.settings.(responses := on), a.stored, true)
    ensures letter == 'V' ==> SetTo(a, b, a.settings.(varDlc := on), a.stored, true)
    ensures letter == 'D' ==> SetTo(a, b, a.settings.(dlc := on), a.stored, true)
    ensures letter == 'M' ==> SetTo(a, b, a.settings, a.stored, true)
  {
    hide LineDid, SetTo;
    if letter == 'E' { BitTyped(a, b, E, on, d); }
    if letter == 'L' { BitTyped(a, b, L, on, d); }
    if letter == 'S' { BitTyped(a, b, S, on, d); }
    if letter == 'H' { BitTyped(a, b, H, on, d); }
    if letter == 'R' { BitTyped(a, b, R, on, d); }
    if letter == 'V' { BitTyped(a, b, V, on, d); }
    if letter == 'D' { BitTyped(a, b, Dlc, on, d); }
    if letter == 'M' { BitTyped(a, b, M, on, d); }
  }

  /** The same for the flags with longer names. */
  lemma NamedFlagTyped(a: Moment, b: Moment, letters: string, on: bool, d: Deed)
    requires LineDid(a, b, "AT" + (letters + if on then "1" else "0"), d)
    ensures letters == "CAF" ==> SetTo(a, b, a.settings.(caf := on), a.stored, true)
    ensures letters == "CFC" ==> SetTo(a, b, a.settings.(cfc := on), a.stored, true)
    ensures letters == "CSM" || letters == "KW" ==> SetTo(a, b, a.settings, a.stored, true)
  {
    hide LineDid, SetTo;
    if letters == "CAF" { BitTyped(a, b, Caf, on, d); }
    if letters == "CFC" { BitTyped(a, b, Cfc, on, d); }
    if letters == "CSM" { BitTyped(a, b, Csm, on, d); }
    if letters == "KW" { BitTyped(a, b, KwBit, on, d); }
  }

  /** A name and an argument of the row's shape. */
  lemma TextTyped(a: Moment, b: Moment, r: Row, text: string, x: Args, d: Deed)
    requires LineDid(a, b, "AT" + (Name(r) + text), d) && ParseShape(ShapeOf(r), text) == Some(x)
    requires NoneLonger(Name(r) + text, |Name(r)|) && !Active(r) && Silent(r)
    ensures ArgsFit(ShapeOf(r), x)
    ensures SetTo(a, b, SettingsAfter(a.settings, a.stored, r, x), if r.Sp? then Selection(x) else a.stored,
                  r.Sp? || Changed(a.settings, r, x).Some?)
  {
    hide LineDid, SetTo, Name, ShapeOf, ParseShape, NoneLonger, Active, Silent, SettingsAfter, Changed, ArgsFit;
    ParsedArgsFit(ShapeOf(r), text);
    var body := Name(r) + text;
    assert body[..|Name(r)|] == Name(r) && body[|Name(r)|..] == text;
    RowTyped(a, b, body, r, x, d);
  }

  /** After these names no longer one can follow. */
  lemma NothingFollows(body: string, n: nat)
    requires 2 <= n <= |body|
    requires body[0] == 'A' || body[0] == 'S' || body[0] == 'T' || (body[0] == 'C' && n == 3) || (body[0] == 'F' && n == 4)
             || (body[0] == 'C' && (body[1] == 'P' || body[1] == 'M'))
    ensures NoneLonger(body, n)
  {
    NamesDecide(body, n);
  }

  /** ATAL and ATNL turn long messages on and off; ATAR and ATCRA give up every filter that was set. */
  lemma PlainTyped(a: Moment, b: Moment, d: Deed)
    ensures LineDid(a, b, "ATAL", d) ==> SetTo(a, b, a.settings.(allowLong := true), a.stored, true)
    ensures LineDid(a, b, "ATNL", d) ==> SetTo(a, b, a.settings.(allowLong := false), a.stored, true)
    ensures LineDid(a, b, "ATAR", d) || LineDid(a, b, "ATCRA", d) ==>
      SetTo(a, b, a.settings.(rx := RxFilter.Auto), a.stored, true)
  {
    hide LineDid, SetTo, SettingsAfter, Changed;
    LongChanges(a.settings, a.stored);
    FilterGoes(a.settings, a.stored);
    if LineDid(a, b, "ATAL", d) { NameTyped(a, b, "ATAL", Al, d); }
    if LineDid(a, b, "ATNL", d) { NameTyped(a, b, "ATNL", Nl, d); }
    if LineDid(a, b, "ATAR", d) { NameTyped(a, b, "ATAR", Ar, d); }
    if LineDid(a, b, "ATCRA", d) { NameTyped(a, b, "ATCRA", Cra, d); }
  }

  /** A line that is all name. */
  lemma NameTyped(a: Moment, b: Moment, line: string, r: Row, d: Deed)
    requires LineDid(a, b, line, d) && line == "AT" + Name(r) && (r == Al || r == Nl || r == Ar || r == Cra)
    ensures SetTo(a, b, SettingsAfter(a.settings, a.stored, r, NO_ARGS), a.stored, Changed(a.settings, r, NO_ARGS).Some?)
  {
    hide LineDid, SetTo, SettingsAfter, Changed, RowOf, NoneLonger, Name, ShapeOf, ParseShape, Active, Silent;
    PlainRow(r);
    NamesDecide(Name(r), |Name(r)|);
    assert Name(r) + "" == Name(r);
    TextTyped(a, b, r, "", NO_ARGS, d);
  }

  lemma PlainRow(r: Row)
    requires r == Al || r == Nl || r == Ar || r == Cra
    ensures ParseShape(ShapeOf(r), "") == Some(NO_ARGS) && !Active(r) && Silent(r) && !r.Sp?
  {
  }

  lemma LongChanges(s: Settings, stored: ProtocolSel)
    ensures SettingsAfter(s, stored, Al, NO_ARGS) == s.(allowLong := true) && Changed(s, Al, NO_ARGS).Some?
    ensures SettingsAfter(s, stored, Nl, NO_ARGS) == s.(allowLong := false) && Changed(s, Nl, NO_ARGS).Some?
  {
    SameParts(s.(allowLong := true), s.rx, s.fc);
    SameParts(s.(allowLong := false), s.rx, s.fc);
  }

  lemma FilterGoes(s: Settings, stored: ProtocolSel)
    ensures SettingsAfter(s, stored, Ar, NO_ARGS) == s.(rx := RxFilter.Auto) && Changed(s, Ar, NO_ARGS).Some?
    ensures SettingsAfter(s, stored, Cra, NO_ARGS) == s.(rx := RxFilter.Auto) && Changed(s, Cra, NO_ARGS).Some?
  {
    SameParts(s.(rx := RxFilter.Auto), RxFilter.Auto, s.fc);
  }

  // ---------- Numbers ----------

  /** The last `n` hex digits of a number. */
  function Hexed(v: nat, n: nat): (s: string)
    ensures |s| == n
  {
    if n == 0 then "" else Hexed(v / 16, n - 1) + [Text.Digit(v)]
  }

  lemma DigitIsRead(v: nat)
    ensures HexDigit(Text.Digit(v)) == Some(v % 16)
  {
  }

  lemma {:induction false} HexedIsRead(v: nat, n: nat)
    requires v < Power16(n)
    ensures Hex(Hexed(v, n)) == Some(v)
  {
    hide HexDigit, Text.Digit;
    if n > 0 {
      HexedIsRead(v / 16, n - 1);
      DigitIsRead(v);
      assert Hexed(v, n)[..n - 1] == Hexed(v / 16, n - 1);
    }
  }

  lemma TwoDigitsRead(v: byte)
    ensures ParseShape(Hex2, Hexed(v, 2)) == Some(NO_ARGS.(value := v))
  {
    hide Hex, Hexed, Power16;
    assert Power16(2) == 0x100 by { PowersOf16(); }
    HexedIsRead(v, 2);
  }

  lemma PowersOf16()
    ensures Power16(2) == 0x100 && Power16(3) == 0x1000 && Power16(6) == 0x100_0000 && Power16(8) == WORD
  {
    assert Power16(4) == 0x1_0000;
  }

  /** ATST with two digits sets the first wait: 4 ms times them, 200 ms for 00. */
  lemma TimeoutTyped(a: Moment, b: Moment, v: byte, d: Deed)
    requires LineDid(a, b, "ATST" + Hexed(v, 2), d)
    ensures SetTo(a, b, a.settings.(stTicks := if v == 0 then 50 else v), a.stored, true)
    ensures FirstWaitMs(b.settings) == if v == 0 then 200 else 4 * v
  {
    hide LineDid, Hexed, NoneLonger;
    TwoDigitsRead(v);
    assert "ATST" + Hexed(v, 2) == "AT" + ("ST" + Hexed(v, 2));
    NothingFollows("ST" + Hexed(v, 2), 2);
    TextTyped(a, b, St, Hexed(v, 2), NO_ARGS.(value := v), d);
    SameParts(a.settings.(stTicks := if v == 0 then 50 else v), a.settings.rx, a.settings.fc);
  }

  /** ATAT with 0, 1 or 2 sets the wait after an answer: the ST time, at most 50 ms of it, or 25. */
  lemma AdaptiveTyped(a: Moment, b: Moment, c: char, d: Deed)
    requires LineDid(a, b, "ATAT" + [c], d) && '0' <= c <= '2'
    ensures SetTo(a, b, a.settings.(adaptive := c as int - '0' as int), a.stored, true)
    ensures NextWaitMs(b.settings)
      == var st: nat := 4 * if a.settings.stTicks != 0 then a.settings.stTicks else 50;
         if c == '1' && st > 50 then 50 else if c == '2' && st > 25 then 25 else st
  {
    hide LineDid, NoneLonger;
    var x := NO_ARGS.(value := c as int - '0' as int);
    assert ParseShape(Digit012, [c]) == Some(x);
    assert "ATAT" + [c] == "AT" + ("AT" + [c]);
    NothingFollows("AT" + [c], 2);
    TextTyped(a, b, Adaptive, [c], x, d);
    SameParts(a.settings.(adaptive := x.value), a.settings.rx, a.settings.fc);
  }

  /** ATCP with two digits sets the priority bits, five of them. */
  lemma PriorityTyped(a: Moment, b: Moment, v: byte, d: Deed)
    requires LineDid(a, b, "ATCP" + Hexed(v, 2), d)
    ensures SetTo(a, b, a.settings.(canPriority := v % 32), a.stored, true)
  {
    hide LineDid, Hexed, NoneLonger;
    TwoDigitsRead(v);
    assert "ATCP" + Hexed(v, 2) == "AT" + ("CP" + Hexed(v, 2));
    NothingFollows("CP" + Hexed(v, 2), 2);
    TextTyped(a, b, Cp, Hexed(v, 2), NO_ARGS.(value := v), d);
    SameParts(a.settings.(canPriority := v % 32), a.settings.rx, a.settings.fc);
  }

  // ---------- Headers, filters and flow control ----------

  predicate FitsHeader(v: nat, n: nat) {
    (n == 3 && v < 0x1000) || (n == 6 && v < 0x100_0000) || (n == 8 && v < WORD)
  }

  lemma HeaderRead(v: nat, n: nat)
    requires FitsHeader(v, n)
    ensures ParseShape(Shape.Header, Hexed(v, n)) == Some(NO_ARGS.(value := v, count := n))
  {
    hide Hex, Hexed, Power16;
    PowersOf16();
    HexedIsRead(v, n);
  }

  /** ATSH with three, six or eight digits sets the header of requests. */
  lemma HeaderTyped(a: Moment, b: Moment, v: nat, n: nat, d: Deed)
    requires FitsHeader(v, n) && LineDid(a, b, "ATSH" + Hexed(v, n), d)
    ensures SetTo(a, b, a.settings.(header := TxHeader(v, n)), a.stored, true)
  {
    hide LineDid, Hexed, NoneLonger, ParseShape;
    HeaderRead(v, n);
    assert "ATSH" + Hexed(v, n) == "AT" + ("SH" + Hexed(v, n));
    NothingFollows("SH" + Hexed(v, n), 2);
    TextTyped(a, b, Sh, Hexed(v, n), NO_ARGS.(value := v, count := n), d);
    SameParts(a.settings.(header := TxHeader(v, n)), a.settings.rx, a.settings.fc);
  }

  /** ATFCSH does the same for flow control. */
  lemma FlowHeaderTyped(a: Moment, b: Moment, v: nat, n: nat, d: Deed)
    requires FitsHeader(v, n) && LineDid(a, b, "ATFCSH" + Hexed(v, n), d)
    ensures SetTo(a, b, a.settings.(fc := a.settings.fc.(header := TxHeader(v, n))), a.stored, true)
  {
    hide LineDid, Hexed, NoneLonger, ParseShape;
    HeaderRead(v, n);
    assert "ATFCSH" + Hexed(v, n) == "AT" + ("FCSH" + Hexed(v, n));
    NothingFollows("FCSH" + Hexed(v, n), 4);
    TextTyped(a, b, Fcsh, Hexed(v, n), NO_ARGS.(value := v, count := n), d);
    SameParts(a.settings, a.settings.rx, a.settings.fc);
  }

  lemma {:induction false} BytesRead(data: seq<byte>)
    ensures |HexOf(data)| == 2 * |data| && HexBytes(HexOf(data)) == Some(data)
  {
    hide HexWord, Text.Digit;
    if data != [] {
      var front, v := data[..|data| - 1], data[|data| - 1];
      BytesRead(front);
      ByteRead(v);
      var t := HexOf(data);
      assert t[..|t| - 2] == HexOf(front) && t[|t| - 2..] == Text.ByteText(v);
      assert front + [v] == data;
    }
  }

  lemma ByteRead(v: byte)
    ensures HexWord(Text.ByteText(v)) == Some(v)
  {
    hide HexDigit, Text.Digit;
    DigitIsRead(v / 16);
    DigitIsRead(v);
    var t := Text.ByteText(v);
    assert t[..1] == [Text.Digit(v / 16)] && t[..1][..0] == "";
    assert Hex(t[..1]) == Some(v / 16);
  }

  lemma DataRead(data: seq<byte>)
    requires 1 <= |data| <= 5
    ensures ParseShape(Bytes1to5, HexOf(data)) == Some(NO_ARGS.(bytes := data, count := |data|))
  {
    hide HexOf, HexBytes;
    BytesRead(data);
  }

  /** ATFCSD with one to five bytes sets what flow control says in modes 1 and 2. */
  lemma FlowDataTyped(a: Moment, b: Moment, data: seq<byte>, d: Deed)
    requires 1 <= |data| <= 5 && LineDid(a, b, "ATFCSD" + HexOf(data), d)
    ensures SetTo(a, b, a.settings.(fc := a.settings.fc.(data := data)), a.stored, true)
  {
    hide LineDid, HexOf, NoneLonger, ParseShape;
    DataRead(data);
    assert "ATFCSD" + HexOf(data) == "AT" + ("FCSD" + HexOf(data));
    NothingFollows("FCSD" + HexOf(data), 4);
    TextTyped(a, b, Fcsd, HexOf(data), NO_ARGS.(bytes := data, count := |data|), d);
    SameParts(a.settings, a.settings.rx, a.settings.fc);
  }

  /** ATFCSM sets the mode, but modes 1 and 2 need the data, and mode 1 the header: else "?". */
  lemma FlowModeTyped(a: Moment, b: Moment, c: char, d: Deed)
    requires '0' <= c <= '2' && LineDid(a, b, "ATFCSM" + [c], d)
    ensures var fc := a.settings.fc;
      if (c != '0' && fc.data == []) || (c == '1' && fc.header.digits == 0) then SetTo(a, b, a.settings, a.stored, false)
      else SetTo(a, b, a.settings.(fc := fc.(mode := c as int - '0' as int)), a.stored, true)
  {
    hide LineDid, NoneLonger;
    var x := NO_ARGS.(value := c as int - '0' as int);
    assert ParseShape(Digit012, [c]) == Some(x);
    assert "ATFCSM" + [c] == "AT" + ("FCSM" + [c]);
    NothingFollows("FCSM" + [c], 4);
    TextTyped(a, b, Fcsm, [c], x, d);
    SameParts(a.settings, a.settings.rx, a.settings.fc);
  }

  /** Some hex digits, and X where a digit is free. */
  predicate IsPattern(t: string) { forall i :: 0 <= i < |t| ==> t[i] == 'X' || HexDigit(t[i]).Some? }

  /** The digits agree where the pattern has one. */
  predicate Agrees(t: string, v: nat) { forall i :: 0 <= i < |t| ==> t[i] == 'X' || t[i] == Hexed(v, |t|)[i] }

  lemma {:induction false} PatternMasks(t: string, v: uint32)
    requires IsPattern(t) && |t| <= 8
    ensures PatternBits(t).Some?
    ensures var (value, mask) := PatternBits(t).value;
      value < WORD && mask < WORD && (MaskedEqual(v, value, mask) <==> Agrees(t, v))
  {
    hide HexDigit, Text.Digit, MaskedEqual, Agrees;
    EightDigits(|t|);
    if t == "" {
      NoMask(v, 0);
      NothingToAgree(v);
    } else {
      var front, c := t[..|t| - 1], t[|t| - 1];
      PatternMasks(front, v / 16);
      AgreesNext(t, v);
      EightDigits(|front|);
      var (value, mask) := PatternBits(front).value;
      PowerBelow(|front|);
      if c == 'X' { FreeDigit(v, value, mask); } else { SetDigit(v, value, HexDigit(c).value, mask); DigitMeans(c, v); }
    }
  }

  lemma PowerBelow(n: nat)
    requires n < 8
    ensures 16 * Power16(n) <= WORD
  {
    EightDigits(n + 1);
  }

  lemma NothingToAgree(v: nat)
    ensures Agrees("", v)
  {
  }

  lemma AgreesNext(t: string, v: nat)
    requires t != ""
    ensures var c := t[|t| - 1]; Agrees(t, v) <==> Agrees(t[..|t| - 1], v / 16) && (c == 'X' || c == Text.Digit(v))
  {
    hide Text.Digit;
    var front := t[..|t| - 1];
    assert Hexed(v, |t|) == Hexed(v / 16, |front|) + [Text.Digit(v)];
    if Agrees(t, v) {
      forall i | 0 <= i < |front| ensures front[i] == 'X' || front[i] == Hexed(v / 16, |front|)[i] {
        assert t[i] == front[i];
      }
    }
  }

  lemma DigitMeans(c: char, v: nat)
    requires HexDigit(c).Some?
    ensures c == Text.Digit(v) <==> HexDigit(c).value == v % 16
  {
  }

  /** A free digit leaves it to the others. */
  lemma FreeDigit(v: uint32, value: uint32, mask: uint32)
    requires 16 * mask < WORD && 16 * value < WORD
    ensures MaskedEqual(v, 16 * value, 16 * mask) <==> MaskedEqual(v / 16, value, mask)
  {
    hide MaskedEqual;
    if mask == 0 {
      NoMask(v, 16 * value);
      NoMask(v / 16, value);
    } else {
      FourTimes(mask, v, value);
      SkipLow(v, 16 * value, mask, 4);
    }
  }

  lemma FourTimes(mask: nat, v: nat, value: nat)
    ensures Doubled(mask, 4) == 16 * mask && Halved(v, 4) == v / 16 && Halved(16 * value, 4) == value
  {
    assert Doubled(mask, 1) == 2 * mask;
    assert Doubled(mask, 2) == 4 * mask;
    assert Doubled(mask, 3) == 8 * mask;
    FourHalves(v);
    FourHalves(16 * value);
  }

  lemma FourHalves(v: nat)
    ensures Halved(v, 4) == v / 16
  {
    assert v / 2 / 2 == v / 4 && v / 4 / 2 == v / 8 && v / 8 / 2 == v / 16;
    assert Halved(v / 16, 0) == v / 16;
    assert Halved(v / 8, 1) == v / 16;
    assert Halved(v / 4, 2) == v / 16;
    assert Halved(v / 2, 3) == v / 16;
  }

  /** A given digit must be the last one of the id. */
  lemma SetDigit(v: uint32, value: uint32, digit: nat, mask: uint32)
    requires digit < 16 && 16 * mask + 15 < WORD && 16 * value + digit < WORD
    ensures MaskedEqual(v, 16 * value + digit, 16 * mask + 15) <==> v % 16 == digit && MaskedEqual(v / 16, value, mask)
  {
    var b := 16 * value + digit;
    OddMask(v, b, 8 * mask + 7);
    OddMask(v / 2, b / 2, 4 * mask + 3);
    OddMask(v / 4, b / 4, 2 * mask + 1);
    OddMask(v / 8, b / 8, mask);
    assert b / 2 / 2 == b / 4 && b / 4 / 2 == b / 8 && b / 8 / 2 == value;
    assert v / 2 / 2 == v / 4 && v / 4 / 2 == v / 8 && v / 8 / 2 == v / 16;
  }

  lemma OddMask(a: uint32, b: uint32, mask: uint32)
    requires 2 * mask + 1 < WORD
    ensures MaskedEqual(a, b, 2 * mask + 1) <==> a % 2 == b % 2 && MaskedEqual(a / 2, b / 2, mask)
  {
  }

  /** The filter of a pattern lets in what agrees with it. */
  lemma PatternFilter(s: Settings, t: string, p: Protocol, id: CanId)
    requires IsPattern(t) && |t| <= 8
    requires PatternBits(t).Some? && s.rx.Pattern? && PatternBits(t).value == (s.rx.id, s.rx.mask)
    ensures ReceiveFilter(s, p).Accepts(id) <==> id.ext == (p == Can29_500 || p == Can29_250) && Agrees(t, id.value)
  {
    hide PatternBits, MaskedEqual, IsPattern, Agrees;
    PatternMasks(t, id.value);
  }

  lemma PatternSets(a: Moment, b: Moment, t: string, d: Deed)
    requires IsPattern(t) && (|t| == 3 || |t| == 8) && LineDid(a, b, "ATCRA" + t, d)
    ensures PatternBits(t).Some? && PatternBits(t).value.0 < WORD && PatternBits(t).value.1 < WORD
    ensures b.settings == a.settings.(rx := RxFilter.Pattern(PatternBits(t).value.0, PatternBits(t).value.1))
  {
    hide LineDid, NoneLonger, PatternBits, IsPattern, Agrees;
    PatternMasks(t, 0);
    var x := NO_ARGS.(value := PatternBits(t).value.0, mask := PatternBits(t).value.1, count := |t|);
    assert ParseShape(Shape.Pattern, t) == Some(x);
    assert "ATCRA" + t == "AT" + ("CRA" + t);
    NothingFollows("CRA" + t, 3);
    TextTyped(a, b, CraPattern, t, x, d);
    SameParts(a.settings.(rx := RxFilter.Pattern(x.value, x.mask)), RxFilter.Pattern(x.value, x.mask), a.settings.fc);
  }

  /** Main result: after ATCRA with three or eight digits, X for any, the ids that get in are exactly those
      of the protocol's width whose last digits are the ones typed. */
  lemma PatternTyped(a: Moment, b: Moment, t: string, d: Deed, p: Protocol, id: CanId)
    requires IsPattern(t) && (|t| == 3 || |t| == 8) && LineDid(a, b, "ATCRA" + t, d)
    ensures b.settings == a.settings.(rx := b.settings.rx)
    ensures ReceiveFilter(b.settings, p).Accepts(id) <==>
      id.ext == (p == Can29_500 || p == Can29_250)
      && forall i :: 0 <= i < |t| ==> t[i] == 'X' || t[i] == Hexed(id.value, |t|)[i]
  {
    hide LineDid, PatternBits, ReceiveFilter, IsPattern;
    PatternSets(a, b, t, d);
    PatternFilter(b.settings, t, p, id);
  }

  /** ATCF sets the id that gets in; if no mask is set yet, all the bits of its width count. */
  lemma FilterIdTyped(a: Moment, b: Moment, v: nat, n: nat, d: Deed)
    requires FitsHeader(v, n) && LineDid(a, b, "ATCF" + Hexed(v, n), d)
    ensures var mask := if a.settings.rx.Pattern? then a.settings.rx.mask else if n == 8 then 0x1FFF_FFFF else 0x7FF;
      SetTo(a, b, a.settings.(rx := RxFilter.Pattern(v, mask)), a.stored, true)
  {
    hide LineDid, Hexed, NoneLonger, ParseShape, WithFlag, WithValue;
    var text, x := Hexed(v, n), NO_ARGS.(value := v, count := n);
    HeaderRead(v, n);
    assert "ATCF" + text == "AT" + ("CF" + text);
    NotCfc("CF" + text);
    TextTyped(a, b, Cf, text, x, d);
    OnlyAFilter(a.settings, Cf, x);
  }

  /** ATCM sets the mask; if no id is set yet, it is 0. */
  lemma FilterMaskTyped(a: Moment, b: Moment, v: nat, n: nat, d: Deed)
    requires FitsHeader(v, n) && LineDid(a, b, "ATCM" + Hexed(v, n), d)
    ensures var id := if a.settings.rx.Pattern? then a.settings.rx.id else 0;
      SetTo(a, b, a.settings.(rx := RxFilter.Pattern(id, v)), a.stored, true)
  {
    hide LineDid, Hexed, NoneLonger, ParseShape, WithFlag, WithValue;
    var text, x := Hexed(v, n), NO_ARGS.(value := v, count := n);
    HeaderRead(v, n);
    assert "ATCM" + text == "AT" + ("CM" + text);
    NothingFollows("CM" + text, 2);
    TextTyped(a, b, Cm, text, x, d);
    OnlyAFilter(a.settings, Cm, x);
  }

  lemma OnlyAFilter(s: Settings, r: Row, x: Args)
    requires (r == Cf || r == Cm) && ArgsFit(ShapeOf(r), x)
    ensures WithValue(WithFlag(s, r, x.value != 0), r, x) == s && FlowAfter(s.fc, r, x) == Some(s.fc)
  {
  }

  /** CF and a header that begins with C is not CFC and a bit: it is too long. */
  lemma NotCfc(body: string)
    requires 5 <= |body| && body[0] == 'C' && body[1] == 'F'
    ensures NoneLonger(body, 2)
  {
    hide Matches, Name, RowOf;
    forall r | Matches(r, body).Some? ensures |Name(r)| <= 2 {
      if |Name(r)| > 2 {
        MatchIsPrefix(r, body);
        RowOfName(r);
        BlankHasNoName();
        OnlyCfc(body[..|Name(r)|], ShapeOf(r).NoArgs?);
        BitIsShort(body);
      }
    }
  }

  lemma OnlyCfc(name: string, noArgs: bool)
    requires |name| > 2 && name[0] == 'C' && name[1] == 'F'
    ensures RowOf(name, noArgs) == Blank || RowOf(name, noArgs) == Cfc
  {
  }

  lemma BitIsShort(body: string)
    requires 5 <= |body|
    ensures Matches(Cfc, body).None?
  {
  }

  // ---------- Protocols ----------

  /** The line is ATSP or ATTP with this digit, perhaps after A. */
  ghost predicate Selecting(a: Moment, b: Moment, verb: string, searched: bool, c: char, d: Deed) {
    (verb == "SP" || verb == "TP") && '0' <= c <= '9'
    && LineDid(a, b, "AT" + (verb + ((if searched then "A" else "") + [c])), d)
  }

  /** ATSP and a digit, with or without A before it, select and store a protocol; ATTP selects it only. */
  lemma ProtocolTyped(a: Moment, b: Moment, verb: string, searched: bool, c: char, d: Deed)
    requires Selecting(a, b, verb, searched, c, d)
    ensures '0' <= c <= '9'
    ensures var p := [Unset, J1850Pwm, J1850Vpw, Iso9141, Kwp5Baud, KwpFast, Can11_500, Can29_500, Can11_250, Can29_250]
                       [c as int - '0' as int];
      var sel := ProtocolSel(p, searched || c == '0');
      SetTo(a, b, a.settings.(protocol := sel), if verb == "SP" then sel else a.stored, true)
  {
    hide LineDid, NoneLonger, SetTo, SettingsAfter, Changed, Selection;
    var text := (if searched then "A" else "") + [c];
    var x := NO_ARGS.(value := c as int - '0' as int, automatic := searched || c == '0');
    DigitSelects(searched, c);
    NothingFollows(verb + text, 2);
    if verb == "SP" {
      TextTyped(a, b, Sp, text, x, d);
      SelectChanges(a.settings, a.stored, Sp, x);
    } else {
      TextTyped(a, b, Tp, text, x, d);
      SelectChanges(a.settings, a.stored, Tp, x);
    }
    ProtocolIs(c, x);
  }

  lemma DigitSelects(searched: bool, c: char)
    requires '0' <= c <= '9'
    ensures ParseProtocol((if searched then "A" else "") + [c])
      == Some(NO_ARGS.(value := c as int - '0' as int, automatic := searched || c == '0'))
  {
    var text := (if searched then "A" else "") + [c];
    if searched { assert text[0] == 'A' && text[1..] == [c]; }
    assert |text| == 1 || text[0] == 'A';
  }

  lemma ProtocolIs(c: char, x: Args)
    requires '0' <= c <= '9' && x.value == c as int - '0' as int
    ensures Selection(x)
      == ProtocolSel([Unset, J1850Pwm, J1850Vpw, Iso9141, Kwp5Baud, KwpFast, Can11_500, Can29_500, Can11_250, Can29_250]
                       [c as int - '0' as int], x.automatic)
  {
  }

  lemma SelectChanges(s: Settings, stored: ProtocolSel, r: Row, x: Args)
    requires (r.Sp? || r.Tp?) && ArgsFit(ShapeOf(r), x)
    ensures SettingsAfter(s, stored, r, x) == s.(protocol := Selection(x)) && Changed(s, r, x).Some?
  {
    hide Selection;
    SameParts(s.(protocol := Selection(x)), s.rx, s.fc);
  }

  // ---------- What is shown, and what goes back ----------

  /** ATDPN prints the digit that was typed, after A if the protocol may be searched for. */
  lemma DigitComesBack(a: Moment, m: Moment, b: Moment, verb: string, searched: bool, c: char, sp: Deed, d: Deed)
    requires Selecting(a, m, verb, searched, c, sp) && LineDid(m, b, "ATDPN", d)
    ensures b.sum.session.output
      == m.sum.session.output + (if searched || c == '0' then "A" else "") + [c] + LineEnd(a.settings)
  {
    hide LineDid, SetTo, LineEnd, Selecting;
    ProtocolTyped(a, m, verb, searched, c, sp);
    SettingsAre(a, m, verb, searched, c);
    DigitPrinted(m, b, c, d);
  }

  lemma SettingsAre(a: Moment, m: Moment, verb: string, searched: bool, c: char)
    requires '0' <= c <= '9'
    requires var q := [Unset, J1850Pwm, J1850Vpw, Iso9141, Kwp5Baud, KwpFast, Can11_500, Can29_500, Can11_250, Can29_250]
                       [c as int - '0' as int];
      var sel := ProtocolSel(q, searched || c == '0');
      SetTo(a, m, a.settings.(protocol := sel), if verb == "SP" then sel else a.stored, true)
    ensures m.settings.protocol.automatic == (searched || c == '0') && ProtocolDigit(m.settings.protocol.current) == c
    ensures LineEnd(m.settings) == LineEnd(a.settings)
  {
  }

  lemma DigitPrinted(m: Moment, b: Moment, c: char, d: Deed)
    requires LineDid(m, b, "ATDPN", d) && ProtocolDigit(m.settings.protocol.current) == c
    ensures b.sum.session.output
      == m.sum.session.output + (if m.settings.protocol.automatic then "A" else "") + [c] + LineEnd(m.settings)
  {
    hide LineDid, AtDid, ProtocolDigit, RowOf, Changed, SettingsAfter, ActiveDid;
    assert "ATDPN" == "AT" + "DPN";
    AtTyped(m, b, "DPN", d);
    NamesDecide("DPN", 3);
    InfoRan(Commands.Starting(m, "ATDPN"), b, Dpn, d);
  }

  /** ATDP prints AUTO, or the name of the protocol of that number, after AUTO if it may be searched for. */
  lemma NameComesBack(a: Moment, m: Moment, b: Moment, verb: string, searched: bool, c: char, sp: Deed, d: Deed)
    requires Selecting(a, m, verb, searched, c, sp) && LineDid(m, b, "ATDP", d)
    ensures '0' <= c <= '9'
    ensures var name := ["", "SAE J1850 PWM", "SAE J1850 VPW", "ISO 9141-2", "ISO 14230-4 (KWP 5BAUD)", "ISO 14230-4 (KWP FAST)",
                         "ISO 15765-4 (CAN 11/500)", "ISO 15765-4 (CAN 29/500)", "ISO 15765-4 (CAN 11/250)",
                         "ISO 15765-4 (CAN 29/250)"][c as int - '0' as int];
      b.sum.session.output
      == m.sum.session.output
         + ((if c == '0' then "AUTO" else (if searched then "AUTO, " else "") + name) + LineEnd(a.settings))
  {
    hide LineDid, SetTo, LineEnd, Selecting, ProtocolName;
    ProtocolTyped(a, m, verb, searched, c, sp);
    NumberedName(a, m, verb, searched, c);
    assert "ATDP" == "AT" + "DP";
    AtTyped(m, b, "DP", d);
    NamesDecide("DP", 2);
    StartingKeeps(m, "ATDP");
    NamePrinted(Commands.Starting(m, "ATDP"), b, d);
  }

  lemma NumberedName(a: Moment, m: Moment, verb: string, searched: bool, c: char)
    requires '0' <= c <= '9'
    requires var q := [Unset, J1850Pwm, J1850Vpw, Iso9141, Kwp5Baud, KwpFast, Can11_500, Can29_500, Can11_250, Can29_250]
                       [c as int - '0' as int];
      var sel := ProtocolSel(q, searched || c == '0');
      SetTo(a, m, a.settings.(protocol := sel), if verb == "SP" then sel else a.stored, true)
    ensures var sel := m.settings.protocol;
      sel.automatic == (searched || c == '0') && (sel.current == Unset <==> c == '0')
      && ProtocolName(sel.current)
         == ["", "SAE J1850 PWM", "SAE J1850 VPW", "ISO 9141-2", "ISO 14230-4 (KWP 5BAUD)", "ISO 14230-4 (KWP FAST)",
             "ISO 15765-4 (CAN 11/500)", "ISO 15765-4 (CAN 29/500)", "ISO 15765-4 (CAN 11/250)",
             "ISO 15765-4 (CAN 29/250)"][c as int - '0' as int]
    ensures LineEnd(m.settings) == LineEnd(a.settings)
  {
  }

  lemma NamePrinted(m: Moment, b: Moment, d: Deed)
    requires AtDid(m, b, "DP", d) && NoneLonger("DP", 2)
    ensures var sel := m.settings.protocol;
      b.sum.session.output
      == m.sum.session.output
         + ((if sel.current == Unset then "AUTO" else (if sel.automatic then "AUTO, " else "") + ProtocolName(sel.current))
            + LineEnd(m.settings))
  {
    hide AtDid, ProtocolName, RowOf, NoneLonger;
    InfoRan(m, b, Dp, d);
  }

  /** A row that prints one line. */
  lemma InfoRan(m: Moment, b: Moment, r: Row, d: Deed)
    requires AtDid(m, b, Name(r), d) && ShapeOf(r).NoArgs? && !Active(r) && NoneLonger(Name(r), |Name(r)|)
    requires InfoLine(r, m.settings.protocol, m.sum.session.tier).Some?
    ensures b.sum.session.output
      == m.sum.session.output + (InfoLine(r, m.settings.protocol, m.sum.session.tier).value + EndOf(m))
  {
    hide AtDid, Name, InfoLine, NoneLonger, Active, RowDid, EndOf, Changed, SettingsAfter;
    assert Name(r)[|Name(r)|..] == "";
    RowIsRun(m, b, Name(r), r, NO_ARGS, d);
    RowPassive(m, d.mid, r, NO_ARGS, d.reply, d.row);
  }

  /** AT#GUARD and a tier set it, but WRITE is refused on TCP; AT#GUARD prints the one in force. */
  lemma GuardTyped(a: Moment, b: Moment, word: string, d: Deed)
    requires LineDid(a, b, "AT#GUARD" + word, d) && (word == "READ" || word == "CLEAR" || word == "WRITE")
    ensures b.settings == a.settings && b.sum.session.output
      == a.sum.session.output + ((if word == "WRITE" && a.sum.session.onTcp then "?" else "OK") + LineEnd(a.settings))
    ensures b.sum.session.tier
      == if word == "READ" then WriteGuard.Read
         else if word == "CLEAR" then WriteGuard.Clear
         else if a.sum.session.onTcp then a.sum.session.tier
         else WriteGuard.Write
  {
    hide LineDid, AtDid, Commands.Starting, LineEnd, Matches, NoneLonger;
    var body := "#GUARD" + word;
    assert "AT#GUARD" + word == "AT" + body && body[..6] == "#GUARD";
    AtTyped(a, b, body, d);
    WordMatches(word);
    NoLongerGuard(body);
    StartingKeeps(a, "AT" + body);
    GuardRan(Commands.Starting(a, "AT" + body), b, body, TierOf(word), d);
  }

  function TierOf(word: string): WriteGuard.Tier {
    if word == "READ" then WriteGuard.Read else if word == "CLEAR" then WriteGuard.Clear else WriteGuard.Write
  }

  lemma StartingKeeps(a: Moment, line: string)
    ensures var m := Commands.Starting(a, line); var s, t := a.sum.session, m.sum.session;
      m.settings == a.settings && m.stored == a.stored && t.output == s.output && t.tier == s.tier && t.onTcp == s.onTcp
  {
  }

  lemma WordMatches(word: string)
    requires word == "READ" || word == "CLEAR" || word == "WRITE"
    ensures Matches(GuardSet, "#GUARD" + word) == Some(NO_ARGS.(tier := TierOf(word)))
  {
    assert ("#GUARD" + word)[6..] == word && ("#GUARD" + word)[..6] == "#GUARD";
  }

  lemma NoLongerGuard(body: string)
    requires 6 <= |body| && body[..6] == "#GUARD"
    ensures NoneLonger(body, 6)
  {
    NamesDecide(body, 6) by {
      assert body[0] == '#' && body[1] == 'G';
      forall m | 6 < m <= |body| ensures RowOf(body[..m], true) == Blank && RowOf(body[..m], false) == Blank {
        assert body[..m][0] == '#' && body[..m][1] == 'G';
      }
    }
  }

  lemma GuardRan(m: Moment, b: Moment, body: string, t: WriteGuard.Tier, d: Deed)
    requires AtDid(m, b, body, d) && Matches(GuardSet, body) == Some(NO_ARGS.(tier := t)) && NoneLonger(body, 6)
    ensures b.settings == m.settings && b.sum.session.output
      == m.sum.session.output + ((if t == WriteGuard.Write && m.sum.session.onTcp then "?" else "OK") + LineEnd(m.settings))
    ensures b.sum.session.tier == if t == WriteGuard.Write && m.sum.session.onTcp then m.sum.session.tier else t
  {
    hide AtDid, Matches, NoneLonger, RowDid, LineEnd;
    RowIsRun(m, b, body, GuardSet, NO_ARGS.(tier := t), d);
    GuardDid(m, d.mid, NO_ARGS.(tier := t), d.reply, d.row);
  }

  lemma GuardDid(m: Moment, mid: Moment, x: Args, reply: AtReply, d: RowDeed)
    requires RowDid(m, mid, GuardSet, x, reply, d)
    ensures reply == (if x.tier == WriteGuard.Write && m.sum.session.onTcp then Bad else Ok) && mid.settings == m.settings
    ensures var refused := x.tier == WriteGuard.Write && m.sum.session.onTcp;
      mid.sum.session == m.sum.session.(tier := if refused then m.sum.session.tier else x.tier)
  {
  }

  /** AT#GUARD alone prints the tier in force, ATI the version, and ATRV the voltage that the adapter claims. */
  lemma InfoTyped(a: Moment, b: Moment, d: Deed)
    ensures LineDid(a, b, "AT#GUARD", d) ==>
      b.sum.session.output
      == a.sum.session.output + (match a.sum.session.tier case Read => "READ" case Clear => "CLEAR" case Write => "WRITE")
         + LineEnd(a.settings)
    ensures LineDid(a, b, "ATI", d) ==>
      b.sum.session.output == a.sum.session.output + "ELM327 v1.5" + LineEnd(a.settings)
    ensures LineDid(a, b, "ATRV", d) ==> b.sum.session.output == a.sum.session.output + "12.0V" + LineEnd(a.settings)
  {
    hide LineDid, AtDid, NoneLonger, LineEnd;
    NamesDecide("#GUARD", 6);
    NamesDecide("I", 1);
    NamesDecide("RV", 2);
    if LineDid(a, b, "AT#GUARD", d) { InfoLineTyped(a, b, "AT#GUARD", GuardShow, d); }
    if LineDid(a, b, "ATI", d) { InfoLineTyped(a, b, "ATI", I, d); }
    if LineDid(a, b, "ATRV", d) { InfoLineTyped(a, b, "ATRV", Rv, d); }
  }

  lemma InfoLineTyped(a: Moment, b: Moment, line: string, r: Row, d: Deed)
    requires LineDid(a, b, line, d) && line == "AT" + Name(r) && (r.GuardShow? || r.I? || r.Rv?)
    requires NoneLonger(Name(r), |Name(r)|)
    ensures InfoLine(r, a.settings.protocol, a.sum.session.tier).Some?
    ensures b.sum.session.output
      == a.sum.session.output + (InfoLine(r, a.settings.protocol, a.sum.session.tier).value + LineEnd(a.settings))
  {
    hide LineDid, AtDid, NoneLonger, LineEnd;
    AtTyped(a, b, Name(r), d);
    InfoRan(Commands.Starting(a, line), b, r, d);
  }

  /** ATD goes back to these settings, and to the protocol that ATSP stored, and leaves the bus. */
  lemma DefaultsTyped(a: Moment, b: Moment, d: Deed)
    requires LineDid(a, b, "ATD", d)
    ensures var s := b.settings;
      s.echo && !s.linefeeds && s.spaces && !s.headers && !s.dlc && s.responses && s.caf && s.cfc
      && !s.allowLong && !s.varDlc
      && s.adaptive == 1 && FirstWaitMs(s) == 200 && NextWaitMs(s) == 50 && s.canPriority == 0x18 && s.protocol == a.stored
      && s.header.digits == 0 && s.rx == RxFilter.Auto && s.fc == FlowSettings(0, TxHeader(0, 0), [])
    ensures !b.open && b.stored == a.stored && b.sum.session.tier == a.sum.session.tier
    ensures b.sum.session.output == a.sum.session.output + "OK\r"
  {
    hide LineDid, AtDid, NoneLonger;
    assert "ATD" == "AT" + "D";
    AtTyped(a, b, "D", d);
    NamesDecide("D", 1);
    DefaultsRan(Commands.Starting(a, "ATD"), b, d);
  }

  /** ATPC leaves the bus, and changes nothing else. */
  lemma CloseTyped(a: Moment, b: Moment, d: Deed)
    requires LineDid(a, b, "ATPC", d)
    ensures !b.open && b.settings == a.settings && b.stored == a.stored
    ensures a.trace + [Executed("ATPC"), Closed] <= b.trace
    ensures b.sum.session.output == a.sum.session.output + ("OK" + LineEnd(a.settings))
  {
    hide LineDid, AtDid, NoneLonger, LineEnd;
    assert "ATPC" == "AT" + "PC";
    AtTyped(a, b, "PC", d);
    NamesDecide("PC", 2);
    StartingKeeps(a, "ATPC");
    CloseRan(Commands.Starting(a, "ATPC"), b, d);
    assert a.trace + [Executed("ATPC")] + [Closed] == a.trace + [Executed("ATPC"), Closed];
  }

  lemma CloseRan(m: Moment, b: Moment, d: Deed)
    requires AtDid(m, b, "PC", d) && NoneLonger("PC", 2)
    ensures !b.open && b.settings == m.settings && b.stored == m.stored && m.trace + [Closed] <= b.trace
    ensures b.sum.session.output == m.sum.session.output + ("OK" + LineEnd(m.settings))
  {
    hide AtDid, NoneLonger, LineEnd;
    assert Matches(Pc, "PC") == Some(NO_ARGS);
    RowIsRun(m, b, "PC", Pc, NO_ARGS, d);
  }

  lemma DefaultsRan(m: Moment, b: Moment, d: Deed)
    requires AtDid(m, b, "D", d) && NoneLonger("D", 1)
    ensures b.settings == DEFAULTS.(protocol := m.stored) && !b.open && b.stored == m.stored
    ensures b.sum.session.tier == m.sum.session.tier && b.sum.session.output == m.sum.session.output + ("OK" + "\r")
  {
    hide AtDid, NoneLonger;
    assert Matches(Defaults, "D") == Some(NO_ARGS);
    RowIsRun(m, b, "D", Defaults, NO_ARGS, d);
  }
}
