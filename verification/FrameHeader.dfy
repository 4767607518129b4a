/** WebSocket frame headers: libs/websocketpp/frame.hpp, section 5.2 of RFC 6455.

    The two fixed octets are bit vectors, the variable part is a buffer of twelve octets.
    `Head` is what the two fixed octets mean, field by field. */
module FrameHeader {
  import opened Bytes

  const OPCODE: bv8 := 0x0F
  const RSV3: bv8 := 0x10
  const RSV2: bv8 := 0x20
  const RSV1: bv8 := 0x40
  const FIN: bv8 := 0x80
  const PAYLOAD: bv8 := 0x7F
  const MASK: bv8 := 0x80

  const BASIC_LENGTH: nat := 2
  const EXTENDED_LENGTH: nat := 12
  const SIZE_BASIC: nat := 125
  const SIZE_EXTENDED: nat := 0xFFFF
  const CODE_16BIT: bv8 := 0x7E
  const CODE_64BIT: bv8 := 0x7F

  datatype Head = Head(fin: bool, rsv1: bool, rsv2: bool, rsv3: bool, opcode: bv8, masked: bool, size: bv8)

  // ---------------------------------------------------------------- getters

  function GetFin(b0: bv8): (r: bool) { b0 & FIN == FIN }
  function GetRsv1(b0: bv8): (r: bool) { b0 & RSV1 == RSV1 }
  function GetRsv2(b0: bv8): (r: bool) { b0 & RSV2 == RSV2 }
  function GetRsv3(b0: bv8): (r: bool) { b0 & RSV3 == RSV3 }
  function GetOpcode(b0: bv8): (r: bv8) { b0 & OPCODE }
  function GetMasked(b1: bv8): (r: bool) { b1 & MASK == MASK }
  function GetBasicSize(b1: bv8): (r: bv8) { b1 & PAYLOAD }

  function View(b0: bv8, b1: bv8): (r: Head) {
    Head(GetFin(b0), GetRsv1(b0), GetRsv2(b0), GetRsv3(b0), GetOpcode(b0), GetMasked(b1), GetBasicSize(b1))
  }

  function Weight(flag: bool, weight: bv8): (r: bv8) { if flag then weight else 0 }

  // The two octets as section 5.2 of RFC 6455 lays them out, the most significant bit first.
  function FirstOctet(h: Head): (r: bv8) {
    Weight(h.fin, 128) | Weight(h.rsv1, 64) | Weight(h.rsv2, 32) | Weight(h.rsv3, 16) | h.opcode
  }

  function SecondOctet(h: Head): (r: bv8) { Weight(h.masked, 128) | h.size }

  lemma FirstOctetOf(b: bv8, h: Head)
    requires h.opcode <= 15
    ensures GetFin(b) == h.fin && GetRsv1(b) == h.rsv1 && GetRsv2(b) == h.rsv2 && GetRsv3(b) == h.rsv3
             && GetOpcode(b) == h.opcode
       <==> b == FirstOctet(h)
  {
  }

  lemma SecondOctetOf(b: bv8, h: Head)
    requires h.size <= 127
    ensures GetMasked(b) == h.masked && GetBasicSize(b) == h.size <==> b == SecondOctet(h)
  {
  }

  // The getters read that layout, and nothing else has those fields.
  lemma OctetsOf(b0: bv8, b1: bv8, h: Head)
    requires h.opcode <= 15 && h.size <= 127
    ensures View(b0, b1) == h <==> b0 == FirstOctet(h) && b1 == SecondOctet(h)
  {
    hide FirstOctet, SecondOctet, GetFin, GetRsv1, GetRsv2, GetRsv3, GetOpcode, GetMasked, GetBasicSize;
    FirstOctetOf(b0, h);
    SecondOctetOf(b1, h);
  }

  function MaskingKeyOffset(b1: bv8): (r: nat)
    ensures r <= 8
  {
    if GetBasicSize(b1) == CODE_16BIT then 2 else if GetBasicSize(b1) == CODE_64BIT then 8 else 0
  }

  function HeaderLength(b1: bv8): (r: nat)
    ensures BASIC_LENGTH <= r <= BASIC_LENGTH + EXTENDED_LENGTH
  {
    BASIC_LENGTH + MaskingKeyOffset(b1) + if GetMasked(b1) then 4 else 0
  }

  // get_payload_size, with get_extended_size and get_jumbo_size
  function PayloadSize(b1: bv8, extended: seq<Byte>): (r: nat)
    requires |extended| == EXTENDED_LENGTH
  {
    var code := GetBasicSize(b1);
    if code <= 125 then code as nat
    else if code == CODE_16BIT then FromBigEndian(extended[..2])
    else FromBigEndian(extended[..8])
  }

  function MaskingKey(b1: bv8, extended: seq<Byte>): (r: seq<Byte>)
    requires |extended| == EXTENDED_LENGTH
    ensures |r| == 4
  {
    if !GetMasked(b1) then [0, 0, 0, 0] else extended[MaskingKeyOffset(b1)..MaskingKeyOffset(b1) + 4]
  }

  // ---------------------------------------------------------------- what the constructors write

  function SizeCode(size: nat): (r: bv8)
    ensures r <= 127
  {
    if size <= SIZE_BASIC then size as bv8 else if size <= SIZE_EXTENDED then CODE_16BIT else CODE_64BIT
  }

  function SizeOctets(size: nat): (r: seq<Byte>)
    ensures |r| == 0 || |r| == 2 || |r| == 8
  {
    if size <= SIZE_BASIC then [] else if size <= SIZE_EXTENDED then BigEndian(size, 2) else BigEndian(size, 8)
  }

  // A header as the caller asks for it.
  datatype Request = Request(opcode: bv8, size: nat, fin: bool, rsv1: bool, rsv2: bool, rsv3: bool, key: Key)
  datatype Key = NoKey | Key(octets: seq<Byte>)

  ghost predicate ValidRequest(q: Request) {
    q.opcode <= 0xF && q.size < 0x1_0000_0000_0000_0000 && (q.key.Key? ==> |q.key.octets| == 4)
  }

  function RequestedHead(q: Request): (r: Head) {
    Head(q.fin, q.rsv1, q.rsv2, q.rsv3, q.opcode, q.key.Key?, SizeCode(q.size))
  }

  // The octets on the wire for a request.
  function Wire(q: Request): (r: seq<Byte>) {
    var h := RequestedHead(q);
    [FirstOctet(h) as Byte, SecondOctet(h) as Byte] + SizeOctets(q.size) + if q.key.Key? then q.key.octets else []
  }

  lemma SizeReadsBack(b1: bv8, size: nat, extended: seq<Byte>)
    requires size < 0x1_0000_0000_0000_0000 && GetBasicSize(b1) == SizeCode(size)
    requires |extended| == EXTENDED_LENGTH && extended[..|SizeOctets(size)|] == SizeOctets(size)
    ensures MaskingKeyOffset(b1) == |SizeOctets(size)|
    ensures PayloadSize(b1, extended) == size
  {
    SmallPowers();
    BigEndianRoundTrip(size, if size <= SIZE_EXTENDED then 2 else 8);
  }

  // The length in numbers, as section 5.2 of RFC 6455 has it: 7 bits, or 126 and two octets, or
  // 127 and eight, high octet first.
  lemma AnnouncedSize(q: Request)
    requires ValidRequest(q)
    ensures |Wire(q)| >= 2 && Wire(q)[1] == (if q.key.Key? then 128 else 0)
              + if q.size <= 125 then q.size else if q.size <= 65535 then 126 else 127
    ensures 125 < q.size <= 65535 ==> |Wire(q)| >= 4 && Wire(q)[2..4] == [q.size / 256, q.size % 256]
    ensures 65535 < q.size ==> |Wire(q)| >= 10 && Wire(q)[2..10] == BigEndian(q.size, 8)
    ensures q.key.Key? ==> |Wire(q)| >= 4 && Wire(q)[|Wire(q)| - 4..] == q.key.octets
  {
    hide FirstOctet, SecondOctet, RequestedHead, Wire, BigEndian;
    WireInParts(q);
    SecondOctetOnWire(q);
    if 125 < q.size <= 65535 {
      SizeInTwo(q.size);
      assert Wire(q)[2..4] == Wire(q)[2..][..2];
    } else if 65535 < q.size {
      assert Wire(q)[2..10] == Wire(q)[2..][..8];
    }
  }

  lemma SizeInTwo(size: nat)
    requires size <= 65535
    ensures BigEndian(size, 2) == [size / 256, size % 256]
  {
    assert BigEndian(size, 2) == [] + [size / 256 % 256] + [size % 256];
  }

  lemma SecondOctetOnWire(q: Request)
    requires ValidRequest(q)
    ensures SecondOctet(RequestedHead(q)) as nat == (if q.key.Key? then 128 else 0)
              + if q.size <= 125 then q.size else if q.size <= 65535 then 126 else 127
  {
    hide Weight;
    SecondOctetIsSum(q.key.Key?, SizeCode(q.size));
  }

  lemma SecondOctetIsSum(masked: bool, size: bv8)
    requires size <= 127
    ensures (Weight(masked, 128) | size) as nat == (if masked then 128 else 0) + size as nat
  {
    assert Weight(masked, 128) | size == Weight(masked, 128) + size;
  }

  // What can be asked for, and the most that a header takes.
  lemma Requests(q: Request)
    ensures ValidRequest(q) <==> q.opcode <= 15 && q.size < Power256(8) && (q.key.Key? ==> |q.key.octets| == 4)
    ensures BASIC_LENGTH == 2 && EXTENDED_LENGTH == 8 + 4
  {
    SmallPowers();
  }

  lemma TwoOctets(high: Byte, low: Byte)
    ensures FromBigEndian([high, low]) == high as int * 256 + low as int
  {
    assert [high, low][..1] == [high] && [high][..0] == [];
    assert FromBigEndian([high]) == high;
  }

  // And what a reader makes of it.
  lemma ReadSize(b1: bv8, extended: seq<Byte>)
    requires |extended| == EXTENDED_LENGTH
    ensures b1 & 127 <= 125 ==> PayloadSize(b1, extended) == (b1 & 127) as nat && MaskingKeyOffset(b1) == 0
    ensures b1 & 127 == 126 ==>
      PayloadSize(b1, extended) == extended[0] as int * 256 + extended[1] as int && MaskingKeyOffset(b1) == 2
    ensures b1 & 127 == 127 ==>
      PayloadSize(b1, extended) == FromBigEndian(extended[..8]) && MaskingKeyOffset(b1) == 8
  {
    TwoOctets(extended[0], extended[1]);
    assert extended[..2] == [extended[0], extended[1]];
  }

  lemma Slices(a: seq<Byte>, b: seq<Byte>, c: seq<Byte>, k: nat)
    requires |a| + |b| <= k <= |a + b + c|
    ensures (a + b + c)[..k][..|a|] == a && (a + b + c)[..k][|a|..|a| + |b|] == b
  {
  }

  lemma WireInParts(q: Request)
    requires ValidRequest(q)
    ensures |Wire(q)| == 2 + |SizeOctets(q.size)| + if q.key.Key? then 4 else 0
    ensures Wire(q)[0] == FirstOctet(RequestedHead(q)) as Byte && Wire(q)[1] == SecondOctet(RequestedHead(q)) as Byte
    ensures Wire(q)[2..] == SizeOctets(q.size) + if q.key.Key? then q.key.octets else []
  {
    hide FirstOctet, SecondOctet, SizeOctets;
  }

  // The receiver takes its two fixed octets and its buffer from the wire; what lies beyond the
  // header in the buffer does not matter.
  lemma HeaderRoundTrip(q: Request, b0: bv8, b1: bv8, rest: seq<Byte>)
    requires ValidRequest(q) && |Wire(q)[2..] + rest| >= EXTENDED_LENGTH
    requires b0 as Byte == Wire(q)[0] && b1 as Byte == Wire(q)[1]
    ensures var extended := (Wire(q)[2..] + rest)[..EXTENDED_LENGTH];
      && GetFin(b0) == q.fin && GetRsv1(b0) == q.rsv1 && GetRsv2(b0) == q.rsv2 && GetRsv3(b0) == q.rsv3
      && GetOpcode(b0) == q.opcode && GetMasked(b1) == q.key.Key?
      && |Wire(q)| == HeaderLength(b1)
      && PayloadSize(b1, extended) == q.size
      && MaskingKey(b1, extended) == if q.key.Key? then q.key.octets else [0, 0, 0, 0]
  {
    hide FirstOctet, SecondOctet, SizeOctets, SizeCode, PayloadSize, GetFin, GetRsv1, GetRsv2, GetRsv3, GetOpcode,
        GetMasked, GetBasicSize;
    var extended := (Wire(q)[2..] + rest)[..EXTENDED_LENGTH];
    WireInParts(q);
    SameOctets(b0, FirstOctet(RequestedHead(q)));
    SameOctets(b1, SecondOctet(RequestedHead(q)));
    OctetsOf(b0, b1, RequestedHead(q));
    var sizes := SizeOctets(q.size);
    var key := if q.key.Key? then q.key.octets else [];
    Slices(sizes, key, rest, EXTENDED_LENGTH);
    SizeReadsBack(b1, q.size, extended);
  }

  lemma SameOctets(a: bv8, b: bv8)
    requires a as Byte == b as Byte
    ensures a == b
  {
  }

  // Section 5.2 of RFC 6455 wants the fewest octets for the length: no header that states the
  // same size is shorter.
  lemma LengthFormIsMinimal(b1: bv8, size: nat, other: bv8, extended: seq<Byte>)
    requires GetBasicSize(b1) == SizeCode(size)
    requires |extended| == EXTENDED_LENGTH && PayloadSize(other, extended) == size
    ensures MaskingKeyOffset(b1) <= MaskingKeyOffset(other)
  {
    FromBigEndianBound(extended[..2]);
    SmallPowers();
  }

  // ---------------------------------------------------------------- the structures

  // The constructor of the basic header, octet by octet.

  method FlagsAndOpcode(op: bv8, fin: bool, rsv1: bool, rsv2: bool, rsv3: bool) returns (x: bv8)
    ensures op & OPCODE <= 15
    ensures x == Weight(fin, 128) | Weight(rsv1, 64) | Weight(rsv2, 32) | Weight(rsv3, 16) | (op & OPCODE)
  {
    x := 0;
    if fin { x := x | FIN; }
    if rsv1 { x := x | RSV1; }
    if rsv2 { x := x | RSV2; }
    if rsv3 { x := x | RSV3; }
    x := x | (op & OPCODE);
  }

  method MaskAndSize(mask: bool, size: nat) returns (y: bv8)
    ensures y == Weight(mask, 128) | SizeCode(size)
  {
    y := 0;
    if mask { y := y | MASK; }
    var basic: bv8;
    if size <= SIZE_BASIC {
      basic := size as bv8;
    } else if size <= SIZE_EXTENDED {
      basic := CODE_16BIT;
    } else {
      basic := CODE_64BIT;
    }
    y := y | basic;
  }

  class BasicHeader {
    var b0: bv8
    var b1: bv8

    constructor ()
      ensures View(b0, b1) == Head(false, false, false, false, 0, false, 0)
    {
      b0, b1 := 0, 0;
    }

    constructor Raw(p0: bv8, p1: bv8)
      ensures b0 == p0 && b1 == p1
    {
      b0, b1 := p0, p1;
    }

    constructor Fields(op: bv8, size: nat, fin: bool, mask: bool, rsv1: bool, rsv2: bool, rsv3: bool)
      ensures View(b0, b1) == Head(fin, rsv1, rsv2, rsv3, op & OPCODE, mask, SizeCode(size))
    {
      var x := FlagsAndOpcode(op, fin, rsv1, rsv2, rsv3);
      var y := MaskAndSize(mask, size);
      OctetsOf(x, y, Head(fin, rsv1, rsv2, rsv3, op & OPCODE, mask, SizeCode(size)));
      b0, b1 := x, y;
    }

    method SetFin(value: bool)
      modifies this
      ensures View(b0, b1) == old(View(b0, b1)).(fin := value)
    {
      b0 := if value then b0 | FIN else b0 & !FIN;
    }

    method SetRsv1(value: bool)
      modifies this
      ensures View(b0, b1) == old(View(b0, b1)).(rsv1 := value)
    {
      b0 := if value then b0 | RSV1 else b0 & !RSV1;
    }

    method SetRsv2(value: bool)
      modifies this
      ensures View(b0, b1) == old(View(b0, b1)).(rsv2 := value)
    {
      b0 := if value then b0 | RSV2 else b0 & !RSV2;
    }

    method SetRsv3(value: bool)
      modifies this
      ensures View(b0, b1) == old(View(b0, b1)).(rsv3 := value)
    {
      b0 := if value then b0 | RSV3 else b0 & !RSV3;
    }

    method SetMasked(value: bool)
      modifies this
      ensures View(b0, b1) == old(View(b0, b1)).(masked := value)
    {
      b1 := if value then b1 | MASK else b1 & !MASK;
    }
  }

  class ExtendedHeader {
    const bytes: array<Byte>

    constructor ()
      ensures fresh(bytes) && bytes.Length == EXTENDED_LENGTH
      ensures forall k :: 0 <= k < EXTENDED_LENGTH ==> bytes[k] == 0
    {
      bytes := new Byte[EXTENDED_LENGTH](_ => 0);
    }

    constructor Sized(size: nat)
      requires size < 0x1_0000_0000_0000_0000
      ensures fresh(bytes) && bytes.Length == EXTENDED_LENGTH
      ensures bytes[..|SizeOctets(size)|] == SizeOctets(size)
    {
      bytes := new Byte[EXTENDED_LENGTH](_ => 0);
      new;
      var offset := CopyPayload(size);
    }

    constructor Keyed(size: nat, key: seq<Byte>)
      requires size < 0x1_0000_0000_0000_0000 && |key| == 4
      ensures fresh(bytes) && bytes.Length == EXTENDED_LENGTH
      ensures bytes[..|SizeOctets(size)| + 4] == SizeOctets(size) + key
    {
      bytes := new Byte[EXTENDED_LENGTH](_ => 0);
      new;
      var offset := CopyPayload(size);
      forall k | 0 <= k < 4 {
        bytes[offset + k] := key[k];
      }
      assert bytes[..offset] == SizeOctets(size);
      assert bytes[offset..offset + 4] == key;
    }

    // Copies the low end of the size in network order; returns how many octets it took.
    method CopyPayload(size: nat) returns (taken: nat)
      requires bytes.Length == EXTENDED_LENGTH && size < 0x1_0000_0000_0000_0000
      modifies bytes
      ensures taken == |SizeOctets(size)| && bytes[..taken] == SizeOctets(size)
    {
      var payloadOffset := 0;
      if size <= SIZE_BASIC {
        payloadOffset := 8;
      } else if size <= SIZE_EXTENDED {
        payloadOffset := 6;
      }
      var network := BigEndian(size, 8);
      LowEnd(size);
      taken := 8 - payloadOffset;
      forall k | 0 <= k < taken {
        bytes[k] := network[payloadOffset + k];
      }
      assert bytes[..taken] == network[payloadOffset..];
    }
  }

  // Two octets of a 64-bit value in network order are the 16-bit value in network order.
  lemma LowEnd(size: nat)
    ensures BigEndian(size, 8)[8..] == [] && BigEndian(size, 8)[6..] == BigEndian(size, 2)
  {
    assert BigEndian(size, 8) == BigEndian(size / 256 / 256, 6) + [size / 256 % 256] + [size % 256];
    assert BigEndian(size, 2) == [] + [size / 256 % 256] + [size % 256];
  }

  // The two octets, then the size octets at 2 and, if there is one, the key at the end.
  method PrepareHeader(h: BasicHeader, e: ExtendedHeader) returns (wire: seq<Byte>)
    requires e.bytes.Length == EXTENDED_LENGTH
    ensures |wire| == HeaderLength(h.b1) && wire[0] == h.b0 as Byte && wire[1] == h.b1 as Byte
    ensures wire[2..2 + MaskingKeyOffset(h.b1)] == e.bytes[..MaskingKeyOffset(h.b1)]
    ensures wire[2 + MaskingKeyOffset(h.b1)..] == if GetMasked(h.b1) then MaskingKey(h.b1, e.bytes[..]) else []
  {
    wire := [];
    wire := wire + [h.b0 as Byte];
    wire := wire + [h.b1 as Byte];
    wire := wire + e.bytes[..HeaderLength(h.b1) - BASIC_LENGTH];
  }

  // The call sequence of the frame writer: build both structures, then serialise them.
  method BuildHeader(q: Request) returns (wire: seq<Byte>, h: BasicHeader)
    requires ValidRequest(q)
    ensures wire == Wire(q)
  {
    h := new BasicHeader.Fields(q.opcode, q.size, q.fin, q.key.Key?, q.rsv1, q.rsv2, q.rsv3);
    assert q.opcode & OPCODE == q.opcode;
    OctetsOf(h.b0, h.b1, RequestedHead(q));
    var e: ExtendedHeader;
    if q.key.Key? {
      e := new ExtendedHeader.Keyed(q.size, q.key.octets);
    } else {
      e := new ExtendedHeader.Sized(q.size);
    }
    wire := PrepareHeader(h, e);
    ghost var n := |SizeOctets(q.size)|;
    assert MaskingKeyOffset(h.b1) == n && e.bytes[..n] == SizeOctets(q.size);
    assert q.key.Key? ==> e.bytes[..][n..n + 4] == q.key.octets;
    WireOfParts(wire, q, n);
  }

  // What a request is on the wire, the size in numbers.
  method WriteHeader(q: Request) returns (wire: seq<Byte>, h: BasicHeader)
    requires ValidRequest(q)
    ensures wire == Wire(q)
    ensures |wire| >= 2 && wire[1] == (if q.key.Key? then 128 else 0)
              + if q.size <= 125 then q.size else if q.size <= 65535 then 126 else 127
    ensures 125 < q.size <= 65535 ==> |wire| >= 4 && wire[2..4] == [q.size / 256, q.size % 256]
    ensures 65535 < q.size ==> |wire| >= 10 && wire[2..10] == BigEndian(q.size, 8)
  {
    hide *;
    AnnouncedSize(q);
    wire, h := BuildHeader(q);
  }

  lemma WireOfParts(wire: seq<Byte>, q: Request, n: nat)
    requires ValidRequest(q) && n == |SizeOctets(q.size)| && |wire| == 2 + n + if q.key.Key? then 4 else 0
    requires wire[0] == FirstOctet(RequestedHead(q)) as Byte && wire[1] == SecondOctet(RequestedHead(q)) as Byte
    requires wire[2..2 + n] == SizeOctets(q.size) && wire[2 + n..] == if q.key.Key? then q.key.octets else []
    ensures wire == Wire(q)
  {
    hide FirstOctet, SecondOctet, SizeOctets, RequestedHead;
    assert wire == [wire[0], wire[1]] + wire[2..2 + n] + wire[2 + n..];
  }
}
