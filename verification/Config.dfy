/** Session settings and the frames built from them (lib/elm/src/settings.h and settings.cpp). */
module Config {
  import opened CanTypes

  /** A header that the user set with AT SH or AT FC SH, and how many hex digits it had: 3, 6 or 8, or 0
      if none is set. */
  datatype RawHeader = TxHeader(bits: uint32, digits: nat)

  type TxHeader = h: RawHeader |
    (h.digits == 0 && h.bits == 0) || (h.digits == 3 && h.bits < 0x1000)
    || (h.digits == 6 && h.bits < 0x100_0000) || h.digits == 8
    witness TxHeader(0, 0)

  datatype RxFilter = Auto | Pattern(id: uint32, mask: uint32)

  datatype RawFlow = FlowSettings(mode: nat, header: TxHeader, data: seq<byte>)

  type FlowSettings = f: RawFlow | |f.data| <= 5 witness FlowSettings(0, TxHeader(0, 0), [])

  datatype ProtocolSel = ProtocolSel(current: Protocol, automatic: bool)

  datatype Settings = Settings(
    echo: bool, linefeeds: bool, spaces: bool, headers: bool, dlc: bool, responses: bool,
    caf: bool, cfc: bool, allowLong: bool, varDlc: bool,
    adaptive: nat, stTicks: byte, canPriority: byte, protocol: ProtocolSel,
    header: TxHeader, rx: RxFilter, fc: FlowSettings)

  const DEFAULTS := Settings(
    true, false, true, false, false, true, true, true, false, false,
    1, 0x32, 0x18, ProtocolSel(Unset, true),
    TxHeader(0, 0), Auto, FlowSettings(0, TxHeader(0, 0), []))

  /** The settings after a protocol search found `p`. */
  function Adopted(s: Settings, p: Protocol): Settings { s.(protocol := ProtocolSel(p, true)) }

  function HeaderId(h: TxHeader, canPriority: byte, p: Protocol): CanId {
    if !Is29Bit(p) then Std11(h.bits)
    else if h.digits == 8 then Ext29(h.bits)
    else Ext29(canPriority % 0x20 * 0x100_0000 + h.bits)
  }

  function RequestId(s: Settings, p: Protocol): CanId {
    if s.header.digits != 0 then HeaderId(s.header, s.canPriority, p)
    else if Is29Bit(p) then Ext29(s.canPriority % 0x20 * 0x100_0000 + 0xDB33F1)
    else Std11(0x7DF)
  }

  function ReceiveFilter(s: Settings, p: Protocol): Acceptance {
    if s.rx.Pattern? then Acceptance(false, Is29Bit(p), s.rx.id, s.rx.mask)
    else if Is29Bit(p) then Acceptance(false, true, 0x18DAF100, 0x1FFFFF00)
    else Acceptance(false, false, 0x7E8, 0x7F8)
  }

  /** Without AT CRA, CF or CM, exactly the standard answer ids get in: 7E8 to 7EF, or 18DAF1xx. */
  lemma AnswerIdsAccepted(s: Settings, p: Protocol, id: CanId)
    requires s.rx == Auto
    ensures ReceiveFilter(s, p).Accepts(id) <==>
      id.ext == Is29Bit(p) && (if id.ext then id.value / 0x100 == 0x18DAF1 else 0x7E8 <= id.value <= 0x7EF)
  {
    if Is29Bit(p) {
      if id.ext { LongFilter(id.value); }
    } else if !id.ext {
      ShortFilter(id.value);
    }
  }

  lemma ShortFilter(v: uint32)
    requires v < 0x800
    ensures MaskedEqual(v, 0x7E8, 0x7F8) <==> 0x7E8 <= v <= 0x7EF
  {
    hide MaskedEqual;
    SkipLow(v, 0x7E8, 0xFF, 3);
    assert Doubled(0xFF, 3) == 0x7F8 && Halved(0x7E8, 3) == 0xFD;
    assert Halved(v, 3) == v / 8 by {
      assert Halved(v / 8, 0) == v / 8;
      assert Halved(v / 4, 1) == v / 8;
    }
    LowOnes(v / 8, 0xFD, 8);
    assert Power2(8) == 0x100;
  }

  lemma LongFilter(v: uint32)
    requires v < 0x2000_0000
    ensures MaskedEqual(v, 0x18DAF100, 0x1FFF_FF00) <==> v / 0x100 == 0x18DAF1
  {
    hide MaskedEqual;
    SkipLow(v, 0x18DAF100, 0x1F_FFFF, 8);
    assert Doubled(0x1F_FFFF, 8) == 0x1FFF_FF00 && Halved(0x18DAF100, 8) == 0x18DAF1;
    HalvedEight(v);
    assert Power2(8) == 0x100;
    assert Power2(16) == 0x1_0000;
    assert Power2(21) == 0x20_0000;
    LowOnes(v / 0x100, 0x18DAF1, 21);
  }

  lemma HalvedEight(v: nat)
    ensures Halved(v, 8) == v / 0x100
  {
    assert Halved(v / 0x100, 0) == v / 0x100;
    assert Halved(v / 0x80, 1) == v / 0x100;
    assert Halved(v / 0x40, 2) == v / 0x100;
    assert Halved(v / 0x20, 3) == v / 0x100;
    assert Halved(v / 0x10, 4) == v / 0x100;
    assert Halved(v / 8, 5) == v / 0x100;
    assert Halved(v / 4, 6) == v / 0x100;
    assert Halved(v / 2, 7) == v / 0x100;
  }

  function Pad(s: Settings, data: seq<byte>): (r: seq<byte>)
    requires |data| <= 8
    ensures |r| <= 8 && data <= r
  {
    if s.varDlc then data else data + seq(8 - |data|, _ => 0)
  }

  function Take(bytes: seq<byte>, n: nat): (r: seq<byte>)
    ensures |r| <= n
  {
    if |bytes| > n then bytes[..n] else bytes
  }

  /** A request as it goes on the bus: with CAF1 a length byte and up to seven of its bytes, with CAF0
      up to eight bytes as they are. */
  function RequestFrame(s: Settings, p: Protocol, bytes: seq<byte>): (f: CanFrame)
    ensures f.id == RequestId(s, p)
  {
    var data := if s.caf then [|Take(bytes, 7)|] + Take(bytes, 7) else Take(bytes, 8);
    Frame(RequestId(s, p), Pad(s, data))
  }

  /** With CAF1, a request of up to seven bytes is a single frame of exactly those. */
  lemma RequestCarries(s: Settings, p: Protocol, bytes: seq<byte>)
    requires s.caf && 1 <= |bytes| <= 7
    ensures var f := RequestFrame(s, p, bytes);
      SingleFrameLength(f) == |bytes| && f.data[1..1 + |bytes|] == bytes
  {
    hide Pad, RequestId;
    var data := RequestFrame(s, p, bytes).data;
    assert [|bytes|] + bytes <= data;
    assert data[1..1 + |bytes|] == bytes;
  }

  /** The data bytes of a request do not depend on the protocol; only its id does. */
  lemma RequestDataSame(s: Settings, p: Protocol, q: Protocol, bytes: seq<byte>)
    ensures RequestFrame(s, p, bytes).data == RequestFrame(s, q, bytes).data
  {
  }

  function AutomaticFlowControlId(s: Settings, p: Protocol, responder: CanId): CanId {
    var v := responder.value;
    if !responder.ext && 0x7E8 <= v <= 0x7EF then Std11(v - 8)
    else if responder.ext && v / 0x100 == 0x18DAF1 then Ext29(0x18DA00F1 + v % 0x100 * 0x100)
    else RequestId(s, p)
  }

  function FlowControlFrame(s: Settings, p: Protocol, first: CanFrame): CanFrame {
    var id := if s.fc.mode == 1 then HeaderId(s.fc.header, s.canPriority, p)
              else AutomaticFlowControlId(s, p, first.id);
    Frame(id, Pad(s, if s.fc.mode == 0 then [0x30, 0, 0] else s.fc.data))
  }

  /** Where our flow control goes and what it says. In modes 0 and 2 it reaches the responder: 7E8 to 7EF
      are answered on 7E0 to 7E7, 18DAF1xx on 18DAxxF1. In mode 1 it goes out with the FC SH header. In mode 0
      it says clear-to-send, with no block limit and no spacing, in modes 1 and 2 what AT FC SD set; and zeros
      up to eight bytes, unless AT V1. */
  lemma FlowControlReaches(s: Settings, p: Protocol, first: CanFrame)
    ensures var f, v := FlowControlFrame(s, p, first), first.id.value;
      s.fc.mode != 1 ==>
        (!first.id.ext && 0x7E8 <= v <= 0x7EF ==> f.id == RawId(false, v - 8))
        && (first.id.ext && 0x18DAF100 <= v <= 0x18DAF1FF ==> f.id == RawId(true, 0x18DA00F1 + (v - 0x18DAF100) * 0x100))
    ensures var id, h := FlowControlFrame(s, p, first).id, s.fc.header;
      s.fc.mode == 1 ==>
        id.ext == (p == Can29_500 || p == Can29_250)
        && id.value == if !id.ext then h.bits % 0x800
                       else if h.digits == 8 then h.bits % 0x2000_0000
                       else (s.canPriority % 32 * 0x100_0000 + h.bits) % 0x2000_0000
    ensures var data := FlowControlFrame(s, p, first).data; var said := if s.fc.mode == 0 then [0x30, 0, 0] else s.fc.data;
      |data| == (if s.varDlc then |said| else 8)
      && forall i :: 0 <= i < |data| ==> data[i] == if i < |said| then said[i] else 0
  {
  }

  function FirstWaitMs(s: Settings): (ms: nat)
    ensures 4 <= ms <= 1020
  {
    (if s.stTicks != 0 then s.stTicks else 0x32) * 4
  }

  function NextWaitMs(s: Settings): (ms: nat)
    ensures 0 < ms <= FirstWaitMs(s)
  {
    var st, cap := FirstWaitMs(s), if s.adaptive == 2 then 25 else 50;
    if s.adaptive == 0 || st < cap then st else cap
  }

  const PENDING_WAIT_MS := 5000

  /** Frames that CAF1 with H0 can show as ISO-TP payload. */
  predicate ShownAsResponse(s: Settings, f: CanFrame) {
    !s.caf || s.headers
    || match PciOf(f)
       case Single => SingleFrameLength(f) != 0
       case First => |f.data| >= 2
       case Consecutive => true
       case _ => false
  }
}
