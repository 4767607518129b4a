/** The binary format in numbers: what stands on the wire for every option, datatype and command,
    octet by octet.  The other modules prove that what is written is read back; this one, that it
    is what any other implementation of the protocol writes and reads.  src/rabbitControl/types.h
    has the numbers. */
module Wire {
  import opened Bytes
  import opened Streams
  import opened Options
  import opened TypeDefinitions
  import opened TypeCodec
  import opened Forest
  import opened Parameters
  import opened Packets
  import Initialisation
  import ParameterCodec

  // ---------------------------------------------------------------- words

  lemma Widen(n: nat, width: nat)
    ensures BigEndian(n, 0) == [] && BigEndian(n, width + 1) == BigEndian(n / 256, width) + [n % 256]
  {
  }

  lemma OneOctet(n: nat)
    ensures BigEndian(n, 1) == [n % 256]
  {
    hide BigEndian;
    Widen(n, 0);
    Widen(n / 256, 0);
    assert [] + [n % 256] == [n % 256];
  }

  lemma TwoOctets(n: nat)
    ensures BigEndian(n, 2) == [n / 256 % 256, n % 256]
  {
    hide BigEndian;
    var k := n / 256;
    OneOctet(k);
    Widen(n, 1);
    assert [k % 256] + [n % 256] == [k % 256, n % 256];
  }

  lemma InOneOctet(n: nat)
    requires n < 256
    ensures BigEndian(n, 1) == [n]
  {
    hide BigEndian;
    OneOctet(n);
  }

  lemma InTwoOctets(n: nat)
    requires n < 65536
    ensures BigEndian(n, 2) == [n / 256, n % 256]
  {
    hide BigEndian;
    TwoOctets(n);
  }

  lemma FourOctets(n: nat)
    ensures var m := n / 256 / 256; BigEndian(n, 4) == [m / 256 % 256, m % 256, n / 256 % 256, n % 256]
  {
    hide BigEndian;
    var k := n / 256;
    var m := k / 256;
    TwoOctets(m);
    Widen(k, 2);
    Widen(n, 3);
    var h, a, b, c := m / 256 % 256, m % 256, k % 256, n % 256;
    assert [h, a] + [b] + [c] == [h, a, b, c];
  }

  // An id is two octets, two's complement.
  lemma IdOctets(id: Id)
    ensures id >= 0 ==> IdBytes(id) == [id / 256, id % 256]
    ensures id < 0 ==> IdBytes(id) == [(id + 0x1_0000) / 256, id % 256]
  {
    TwoOctets(Unsigned(id));
  }

  // ---------------------------------------------------------------- values

  // How many octets a value of the datatype takes.
  ghost predicate Takes(datatypeId: int, w: nat) {
    || (datatypeId in {16, 17, 18} && w == 1) || (datatypeId in {19, 20} && w == 2)
    || (datatypeId in {21, 22, 25, 34, 35, 43} && w == 4) || (datatypeId in {23, 24, 26} && w == 8)
    || (datatypeId == 44 && w == 16)
  }

  lemma WidthOf(id: Byte, w: nat)
    requires Takes(id, w)
    ensures Width(id) == w
    ensures id in {16, 17, 18} ==> Width(id) == 1
    ensures id in {19, 20} ==> Width(id) == 2
    ensures id in {21, 22, 25, 34, 35, 43} ==> Width(id) == 4
    ensures id in {23, 24, 26} ==> Width(id) == 8
    ensures id == 44 ==> Width(id) == 16
  {
  }

  // Each word of a value, or each end of a range, has that many octets, whoever writes or reads it.
  lemma ValueOctets(td: TypeDef, w: nat, a: nat, b: nat, t: Text)
    requires td.Number? || td.Simple? || td.Range?
    requires ValidType(td) && Takes(if td.Range? then td.element else Datatype(td), w)
    ensures !td.Range? ==>
      && |ValueBytes(td, OneWord(a))| == w && ValueBytes(td, OneWord(a)) == BigEndian(a, w)
      && (|t| >= w ==> ReadValue(td, In(t)) == Got(OneWord(FromBigEndian(t[..w])), In(t[w..])))
      && (|t| < w ==> ReadValue(td, In(t)).Short?)
    ensures td.Range? ==>
      && |ValueBytes(td, Ends(a, b))| == 2 * w && ValueBytes(td, Ends(a, b)) == BigEndian(a, w) + BigEndian(b, w)
      && (|t| >= 2 * w ==>
            ReadValue(td, In(t)) == Got(Ends(FromBigEndian(t[..w]), FromBigEndian(t[w..2 * w])), In(t[2 * w..])))
      && (|t| < 2 * w ==> ReadValue(td, In(t)).Short?)
  {
    hide BigEndian, FromBigEndian, Takes;
    if td.Range? {
      WidthOf(td.element, w);
      if |t| >= 2 * w { assert t[w..][..w] == t[w..2 * w] && t[w..][w..] == t[2 * w..]; }
    } else {
      WidthOf(Datatype(td), w);
    }
  }

  // Every number, colour, address and boolean is one of these.
  lemma EveryWidth(id: Byte)
    ensures (IsNumber(id) || IsSimple(id)) <==> id in {16, 17, 18, 19, 20, 21, 22, 23, 24, 25, 26, 34, 35, 43, 44}
    ensures IsNumber(id) <==> 17 <= id <= 26
    ensures HasNoOptions(id) <==> id == 39 || id == 40
    ensures IsNumber(id) || IsSimple(id) ==> exists w :: Takes(id, w)
  {
    if IsNumber(id) || IsSimple(id) { assert Takes(id, Width(id)); }
  }

  // The limits that a cleared minimum and maximum are written as: those of the integer types in
  // two's complement, and the smallest normal and the greatest finite pattern of the floats.
  lemma Limits(id: Byte, w: nat)
    requires IsNumber(id) && Takes(id, w)
    ensures id in {18, 20, 22, 24} ==> LeastWord(id) == 0 && GreatestWord(id) == Power256(w) - 1
    ensures id in {17, 19, 21, 23} ==> 2 * LeastWord(id) == Power256(w) && 2 * (GreatestWord(id) + 1) == Power256(w)
    ensures id == 25 ==> LeastWord(id) == 0x80_0000 && GreatestWord(id) == 0x7F80_0000 - 1
    ensures id == 26 ==> LeastWord(id) == 0x10_0000_0000_0000 && GreatestWord(id) == 0x7FF0_0000_0000_0000 - 1
  {
    SmallPowers();
  }

  // Groups, and nothing else, are of datatype 40, and a datatype octet makes that type.
  lemma Groups(td: TypeDef, id: Byte)
    requires ValidType(td)
    ensures Initialisation.IsGroup(td) <==> Datatype(td) == 40
    ensures CreateType(id).Some? ==> ValidType(CreateType(id).value) && Datatype(CreateType(id).value) == id
    ensures CreateType(id).None? <==>
             id !in {16, 17, 18, 19, 20, 21, 22, 23, 24, 25, 26, 33, 34, 35, 39, 40, 42, 43, 44}
  {
    if td.Number? || td.Simple? { EveryWidth(Datatype(td)); }
    EveryWidth(id);
  }

  // A text value has its length in four octets.
  lemma TextOctets(td: TypeDef, v: Text)
    requires td.Str? || td.UriType?
    ensures ValueBytes(td, OneText(v)) == BigEndian(|v|, 4) + v
    ensures Datatype(td) == if td.Str? then 33 else 42
  {
  }

  // ---------------------------------------------------------------- type definitions

  // What separates the schemas of a uri type.
  lemma Blanks(b: Byte)
    ensures Blank(b) <==> b in {9, 10, 11, 12, 13, 32}
  {
  }

  // Texts in options have one, two or four octets of length.
  lemma StringOctets(s: Text)
    ensures |s| < 255 ==> StringBytes(s, TINY) == [|s|] + s
    ensures |s| < 65535 ==> StringBytes(s, SHORT) == [|s| / 256, |s| % 256] + s
    ensures |s| < 0xFFFF_FFFF ==> StringBytes(s, LONG) == BigEndian(|s|, 4) + s
  {
    hide BigEndian, Power256;
    SmallPowers();
    if |s| < 255 { InOneOctet(|s|); }
    if |s| < 65535 { InTwoOctets(|s|); }
  }

  lemma NumberOptionOctets(id: Byte, n: NumberOptions, all: bool, w: nat)
    requires Takes(id, w)
    ensures NumberBytes(id, n, all) ==
      Emit(n.dflt, all, 48, BigEndian(n.dflt.value, w), BigEndian(0, w))
      + (Emit(n.minimum, all, 49, BigEndian(n.minimum.value, w), BigEndian(LeastWord(id), w))
      + (Emit(n.maximum, all, 50, BigEndian(n.maximum.value, w), BigEndian(GreatestWord(id), w))
      + (Emit(n.multipleof, all, 51, BigEndian(n.multipleof.value, w), BigEndian(0, w))
      + (Emit(n.scale, all, 52, [n.scale.value], [0])
      + (Emit(n.unit, all, 53, StringBytes(n.unit.value, 1), StringBytes([], 1)) + [0])))))
  {
    hide BigEndian, StringBytes, Width, Emit, Takes;
    WidthOf(id, w);
  }

  lemma TypeOptionOctets(td: TypeDef, all: bool, w: nat)
    requires ValidType(td)
    requires td.Range? ==> Takes(td.element, w)
    requires td.Simple? ==> Takes(td.id, w)
    ensures td.Range? ==>
      TypeBytes(td, all) == NumberBytes(td.element, td.num, all)
        + (Emit(td.range, all, 48, BigEndian(td.range.value.0, w) + BigEndian(td.range.value.1, w),
                BigEndian(ClearedRange(td.num), w) + BigEndian(ClearedRange(td.num), w)) + [0])
    ensures td.Simple? ==>
      TypeBytes(td, all) == Emit(td.word, all, 48, BigEndian(td.word.value, w), BigEndian(0, w)) + [0]
    ensures td.Str? ==>
      TypeBytes(td, all) == Emit(td.text, all, 48, StringBytes(td.text.value, 4), StringBytes([], 4))
        + (Emit(td.regex, all, 49, StringBytes(td.regex.value, 4), StringBytes([], 4)) + [0])
    ensures td.UriType? ==>
      TypeBytes(td, all) == Emit(td.text, all, 48, StringBytes(td.text.value, 4), StringBytes([], 4))
        + (Emit(td.filter, all, 49, StringBytes(td.filter.value, 1), StringBytes([], 1))
        + ((if td.schemas != [] && (all || td.schemasChanged) then [50] + StringBytes(Join(td.schemas), 1)
            else if td.schemas == [] && td.schemasChanged then [50] + StringBytes([], 1) else []) + [0]))
    ensures td.NoOptions? ==> TypeBytes(td, all) == [0]
    ensures Mandatory(td) == if td.Range? then [45, td.element] else [Datatype(td)]
  {
    hide BigEndian, StringBytes, Width, Emit, Takes, Join, NumberBytes, ClearedRange;
    if td.Range? { WidthOf(td.element, w); }
    if td.Simple? { WidthOf(td.id, w); }
  }

  // ---------------------------------------------------------------- parameters

  lemma OptionOctets(p: Param, all: bool)
    ensures OptionBytes(p, all) ==
      (if p.td.NoOptions? then []
       else Emit(p.value, all, 32, ValueBytes(p.td, p.value.value), ValueBytes(p.td, p.value.value)))
      + (LabelEmit(p.title, all, 33, 1) + (LabelEmit(p.description, all, 34, 2)
      + (Emit(p.tags, all, 35, StringBytes(p.tags.value, 1), StringBytes([], 1))
      + (Emit(p.order, all, 36, BigEndian(p.order.value, 4), [0, 0, 0, 0])
      + (Emit(p.parent, all, 37, IdBytes(p.parent.value), [0, 0])
      + ((if p.userdata != [] && (all || p.userdataChanged) then [39] + p.userdata
          else if p.userdata == [] && p.userdataChanged then [39, 0, 0, 0, 0] else [])
      + (Emit(p.userid, all, 40, StringBytes(p.userid.value, 1), StringBytes([], 1))
      + (Emit(p.readonly, all, 41, [if p.readonly.value then 1 else 0], [0]) + [0]))))))))
  {
    hide BigEndian, StringBytes, Emit, LabelEmit, ValueBytes, IdBytes;
    FourOctets(0);
    IdOctets(0);
  }

  lemma LabelOctets(l: Labelled, all: bool, tag: Byte, width: nat)
    requires width == 1 || width == 2
    ensures LabelEmit(l, all, tag, width) ==
      if l.main.has || l.languages != map[] then
        if all || l.main.changed then
          [tag] + ((if l.main.has then [97, 110, 121] + StringBytes(l.main.value, width) else [])
                   + (LanguageBytes(l.languages, width) + [0]))
        else []
      else if l.main.changed then [tag, 0] else []
  {
    hide StringBytes, LanguageBytes;
  }

  // A value update is the command, the id, the datatype and the value; an update is the command,
  // the tag for data, the id, the type with its options, the options, and two terminators.
  lemma UpdateOctets(p: Param, all: bool)
    ensures OnlyValueChanged(p) ==>
      PacketBytes(Packet(6, None, Some(ParamPayload(p))), all)
        == [6] + (IdBytes(p.id) + (Mandatory(p.td) + ValueBytes(p.td, p.value.value)))
    ensures !OnlyValueChanged(p) ==>
      PacketBytes(Packet(4, None, Some(ParamPayload(p))), all)
        == [4, 18] + (IdBytes(p.id) + (Mandatory(p.td) + (TypeBytes(p.td, all) + OptionBytes(p, all)))) + [0]
  {
    hide IdBytes, Mandatory, TypeBytes, OptionBytes, ValueBytes, OnlyValueChanged;
    var body := IdBytes(p.id) + (Mandatory(p.td) + (TypeBytes(p.td, all) + OptionBytes(p, all)));
    assert [4] + ([] + ([18] + body + [0])) == [4, 18] + body + [0];
  }

  // A 16-bit number, with nothing but its value to tell, has six octets in all.
  lemma ShortUpdate(p: Param, v: nat)
    requires OnlyValueChanged(p) && p.id >= 0 && p.td.Number? && p.td.id == 19
    requires p.value.value == OneWord(v) && v < 65536
    ensures PacketBytes(Packet(6, None, Some(ParamPayload(p))), false)
         == [6, p.id / 256, p.id % 256, 19, v / 256, v % 256]
  {
    hide PacketBytes, IdBytes, ValueBytes, BigEndian, Width, OnlyValueChanged;
    UpdateOctets(p, false);
    IdOctets(p.id);
    WidthOf(19, 2);
    ValueOctets(p.td, 2, v, 0, []);
    InTwoOctets(v);
    assert [6] + ([p.id / 256, p.id % 256] + ([19] + [v / 256, v % 256]))
        == [6, p.id / 256, p.id % 256, 19, v / 256, v % 256];
  }

  // The other packets: a removal, a request for everything, and the question for the version.
  lemma PacketOctets(id: Id)
    ensures id >= 0 ==> PacketBytes(Packet(REMOVE, None, Some(IdPayload(id))), false) == [5, 18, id / 256, id % 256, 0]
    ensures id < 0 ==>
      PacketBytes(Packet(REMOVE, None, Some(IdPayload(id))), false) == [5, 18, (id + 0x1_0000) / 256, id % 256, 0]
    ensures PacketBytes(Packet(INITIALIZE, None, None), false) == [2, 0]
    ensures PacketBytes(Packet(INFO, None, None), false) == [1, 0]
  {
    hide IdBytes;
    IdOctets(id);
  }

  // ---------------------------------------------------------------- bounds and numbers

  // What can be sent: words that fit, and texts that their readers take whole.
  lemma Bounds(id: Byte, n: NumberOptions, td: TypeDef, v: Text, a: Text)
    ensures SendableInfo(v, a) <==> |v| <= 127 && |a| <= 127
    ensures SendableNumber(id, n) <==>
      && n.dflt.value < Power256(Width(id)) && n.minimum.value < Power256(Width(id))
      && n.maximum.value < Power256(Width(id)) && n.multipleof.value < Power256(Width(id)) && |n.unit.value| <= 127
    ensures td.Str? ==> (SendableType(td) <==> |td.text.value| < Power256(4) && |td.regex.value| < Power256(4))
    ensures td.UriType? ==> (SendableType(td) <==>
      && |td.text.value| < Power256(4) && |td.filter.value| <= 127
      && (td.schemas != [] ==>
            |Join(td.schemas)| <= 127 && forall k :: 0 <= k < |td.schemas| ==> Token(td.schemas[k])))
    ensures td.Str? || td.UriType? ==> (ParameterCodec.Fits(td, OneText(v)) <==> |v| < Power256(4))
  {
    SmallPowers();
  }

  lemma ParameterBounds(p: Param)
    ensures ParameterCodec.Sendable(p) <==>
      && SendableType(p.td) && ParameterCodec.Fits(p.td, p.value.value) && p.userdata == []
      && |p.title.main.value| <= 127 && |p.description.main.value| <= 65534
      && (forall k :: k in p.title.languages ==>
            |p.title.languages[k]| <= 127 && ParameterCodec.LanguageCode(k))
      && (forall k :: k in p.description.languages ==>
            |p.description.languages[k]| <= 65534 && ParameterCodec.LanguageCode(k))
      && |p.tags.value| <= 127 && |p.userid.value| <= 127 && p.order.value < 0x1_0000_0000
  {
    hide SendableType, ParameterCodec.Fits, ParameterCodec.LanguageCode;
    SmallPowers();
  }

  // The numbers that only a reader of other implementations' packets meets.
  lemma Numbers()
    ensures DISCOVER == 3 && COMMAND_MAX == 7 && TIMESTAMP == 17 && WIDGET == 38 && ENUM == 36 && DATATYPE_MAX == 47
  {
  }
}
