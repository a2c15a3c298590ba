/** The value types shared by the adapter core and the virtual car
    (lib/elm/src/can_types.h and can_types.cpp).

    Fixed-width integers are subset types of `int`; every place where the program lets one
    wrap around says so with an explicit `% WORD`. */
module CanTypes {

  const WORD := 0x1_0000_0000

  type byte = b: int | 0 <= b < 0x100
  type uint16 = x: int | 0 <= x < 0x1_0000
  type uint32 = x: int | 0 <= x < 0x1_0000_0000

  datatype Option<+T> = None | Some(value: T) {
    function GetOr(default: T): T { if Some? then value else default }
  }

  lemma {:induction false} SubsetSize<T>(a: set<T>, b: set<T>)
    requires a <= b
    ensures |a| <= |b|
  {
    if a != {} {
      var x :| x in a;
      SubsetSize(a - {x}, b - {x});
    }
  }

  /** A CAN identifier: 11 bits, or 29 bits when `ext`. */
  datatype RawId = RawId(ext: bool, value: uint32)

  type CanId = i: RawId | i.value < (if i.ext then 0x2000_0000 else 0x800) witness RawId(false, 0)

  function Std11(v: uint32): CanId { RawId(false, v % 0x800) }

  function Ext29(v: uint32): CanId { RawId(true, v % 0x2000_0000) }

  /** A frame holds exactly its `dlc` data bytes; bytes past the dlc are unspecified in the
      program and absent here. */
  datatype RawFrame = Frame(id: CanId, data: seq<byte>)

  type CanFrame = f: RawFrame | |f.data| <= 8 witness Frame(RawId(false, 0), [])

  datatype Pci = Single | First | Consecutive | FlowControl | Other

  function PciOf(f: CanFrame): Pci {
    if |f.data| == 0 then Other
    else match f.data[0] / 16
      case 0 => Single
      case 1 => First
      case 2 => Consecutive
      case 3 => FlowControl
      case _ => Other
  }

  /** How many payload bytes a single frame carries; none if it is not a well-formed one. */
  function SingleFrameLength(f: CanFrame): (n: nat)
    ensures n > 0 ==> n < |f.data| && n <= 7
  {
    if PciOf(f) != Single then 0
    else
      var n := f.data[0] % 16;
      if 1 <= n && n + 1 <= |f.data| then n else 0
  }

  function FirstFrameLength(f: CanFrame): (n: nat)
    ensures n <= 4095
  {
    if PciOf(f) != First || |f.data| < 2 then 0
    else
      var high: int := f.data[0] % 16;
      high * 256 + f.data[1]
  }

  /** The single frame `03 7F xx 78`: the responder needs more time. */
  predicate IsResponsePending(f: CanFrame) {
    SingleFrameLength(f) == 3 && f.data[1] == 0x7F && f.data[3] == 0x78
  }

  datatype Bitrate = K500 | K250 | K125 | K100

  datatype CanMode = ListenOnly | Normal | Loopback

  /** What the controller passes and the core checks again in software. */
  datatype Acceptance = Acceptance(any: bool, ext: bool, id: uint32, mask: uint32) {
    predicate Accepts(frameId: CanId) {
      any || (frameId.ext == ext && MaskedEqual(frameId.value, id, mask))
    }

    predicate SameAs(o: Acceptance) {
      if any || o.any then any == o.any else ext == o.ext && id == o.id && mask == o.mask
    }
  }

  function Power2(k: nat): (p: nat)
    ensures p > 0
  {
    if k == 0 then 1 else 2 * Power2(k - 1)
  }

  lemma TimesGrows(m: nat, x: int, y: int)
    ensures x <= y ==> m * x <= m * y
  {
  }

  lemma ModUnique(a: nat, m: nat, q: nat, x: nat)
    requires a == m * q + x && x < m
    ensures a % m == x
  {
    var d := a / m;
    assert a == m * d + a % m;
    TimesGrows(m, q + 1, d);
    TimesGrows(m, d + 1, q);
  }

  lemma LowBitSplit(a: nat, p: nat)
    requires p > 0
    ensures a % (2 * p) == 2 * (a / 2 % p) + a % 2
  {
    var q, r := a / 2 / p, a / 2 % p;
    assert a / 2 == p * q + r;
    assert a == 2 * p * q + (2 * r + a % 2);
    ModUnique(a, 2 * p, q, 2 * r + a % 2);
  }

  lemma OnesStep(a: uint32, b: uint32, p: nat)
    requires 0 < p && 2 * p <= WORD
    ensures MaskedEqual(a, b, 2 * p - 1) <==> a % 2 == b % 2 && MaskedEqual(a / 2, b / 2, p - 1)
  {
    assert (2 * p - 1) / 2 == p - 1 && (2 * p - 1) % 2 == 1;
  }

  lemma TwoParts(x: nat, u: nat, y: nat, v: nat)
    requires u < 2 && v < 2
    ensures 2 * x + u == 2 * y + v <==> x == y && u == v
  {
  }

  /** A mask of k ones compares the low k bits. */
  lemma {:induction false} LowOnes(a: uint32, b: uint32, k: nat)
    requires Power2(k) <= WORD
    ensures MaskedEqual(a, b, Power2(k) - 1) <==> a % Power2(k) == b % Power2(k)
    decreases k
  {
    hide MaskedEqual;
    if k == 0 {
      NoMask(a, b);
    } else {
      var p := Power2(k - 1);
      LowOnes(a / 2, b / 2, k - 1);
      OnesStep(a, b, p);
      LowBitSplit(a, p);
      LowBitSplit(b, p);
      TwoParts(a / 2 % p, a % 2, b / 2 % p, b % 2);
    }
  }

  lemma NoMask(a: uint32, b: uint32)
    ensures MaskedEqual(a, b, 0)
  {
  }

  function Doubled(mask: nat, k: nat): nat { if k == 0 then mask else 2 * Doubled(mask, k - 1) }

  function Halved(a: nat, k: nat): (r: nat)
    ensures r <= a
  {
    if k == 0 then a else Halved(a / 2, k - 1)
  }

  /** Zeros at the end of a mask skip the low bits. */
  lemma {:induction false} SkipLow(a: uint32, b: uint32, mask: uint32, k: nat)
    requires mask > 0 && Doubled(mask, k) < WORD
    ensures MaskedEqual(a, b, Doubled(mask, k)) <==> MaskedEqual(Halved(a, k), Halved(b, k), mask)
    decreases k
  {
    if k > 0 { SkipLow(a / 2, b / 2, mask, k - 1); }
  }

  const ACCEPT_ALL := Acceptance(true, false, 0, 0)

  /** `((a ^ b) & mask) == 0`, bit by bit. */
  predicate MaskedEqual(a: uint32, b: uint32, mask: uint32)
    decreases mask
  {
    mask == 0 || ((mask % 2 == 1 ==> a % 2 == b % 2) && MaskedEqual(a / 2, b / 2, mask / 2))
  }

  datatype CanHealth = CanHealth(tec: byte, rec: byte, errorEvents: uint16, rxOverflow: bool)

  datatype Protocol =
    | Unset | J1850Pwm | J1850Vpw | Iso9141 | Kwp5Baud | KwpFast
    | Can11_500 | Can29_500 | Can11_250 | Can29_250

  predicate IsCan(p: Protocol) {
    p.Can11_500? || p.Can29_500? || p.Can11_250? || p.Can29_250?
  }

  predicate Is29Bit(p: Protocol) { p.Can29_500? || p.Can29_250? }

  function BitrateOf(p: Protocol): Bitrate {
    if p.Can11_500? || p.Can29_500? then K500 else K250
  }

  /** A point on the wrapping 32-bit millisecond clock, or never. */
  datatype Deadline = Never | At(ms: uint32) {
    predicate Passed(now: uint32) {
      At? && (now - ms) % WORD < WORD / 2
    }
  }

  function After(now: uint32, ms: uint32): Deadline { At((now + ms) % WORD) }

  /** A bounded set of ids that fills an array in arrival order and ignores everything once it
      is full (SeenIds). */
  class SeenIds {
    const ids: array<CanId>
    var count: nat

    ghost predicate Valid()
      reads this
    {
      count <= ids.Length
    }

    ghost function Contents(): seq<CanId>
      reads this, ids
      requires Valid()
    {
      ids[..count]
    }

    constructor (capacity: nat)
      ensures Valid() && fresh(ids) && ids.Length == capacity && Contents() == []
    {
      ids := new CanId[capacity];
      count := 0;
    }

    method Contains(id: CanId) returns (found: bool)
      requires Valid()
      ensures found <==> id in Contents()
    {
      for i := 0 to count
        invariant id !in ids[..i]
      {
        if ids[i] == id { return true; }
      }
      return false;
    }

    method Add(id: CanId) returns (added: bool)
      requires Valid()
      modifies this`count, ids
      ensures Valid()
      ensures added <==> id !in old(Contents()) && |old(Contents())| < ids.Length
      ensures Contents() == WithId(old(Contents()), id, ids.Length)
    {
      var known := Contains(id);
      if known || count >= ids.Length { return false; }
      ids[count] := id;
      count := count + 1;
      return true;
    }
  }

  function WithId(known: seq<CanId>, id: CanId, capacity: nat): seq<CanId> {
    if id in known || |known| >= capacity then known else known + [id]
  }
}
