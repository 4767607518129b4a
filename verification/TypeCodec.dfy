/** What one side writes for a type definition, the other side's parse loop reads, and it stops
    right after the terminator. */
module TypeCodec {
  import opened Bytes
  import opened Streams
  import opened Options
  import opened TypeDefinitions

  function In(t: Text): (r: Stream) { Stream(t, false) }

  // One turn of the loop on an option whose value is read back.
  lemma LoopTurn(td: TypeDef, tag: Byte, payload: Text, t: Text, td': TypeDef)
    requires tag != TERMINATOR && TypeOption(td, tag, In(payload + t)) == Next(td', In(t))
    ensures TypeLoop(td, In([tag] + payload + t)) == TypeLoop(td', In(t))
  {
    hide *;
    OneTurn(td, tag, payload + t);
    assert [tag] + payload + t == [tag] + (payload + t);
  }

  lemma OneTurn(td: TypeDef, tag: Byte, rest: Text)
    requires tag != TERMINATOR
    ensures var r := TypeOption(td, tag, In(rest));
      TypeLoop(td, In([tag] + rest)) == if r.Next? then TypeLoop(r.value, r.stream) else Failed
  {
    hide TypeOption;
    assert ([tag] + rest)[1..] == rest;
  }

  lemma LoopEnd(td: TypeDef, t: Text)
    ensures TypeLoop(td, In([TERMINATOR] + t)) == Done(td, In(t))
  {
    assert ([TERMINATOR] + t)[1..] == t;
  }

  // ---------------------------------------------------------------- numbers

  function WordOf(n: NumberOptions, tag: Byte): (r: Opt<nat>)
    requires DEFAULT <= tag <= MULTIPLEOF
  {
    if tag == DEFAULT then n.dflt else if tag == MINIMUM then n.minimum else if tag == MAXIMUM then n.maximum
        else n.multipleof
  }

  function WithWord(n: NumberOptions, tag: Byte, o: Opt<nat>): (r: NumberOptions)
    requires DEFAULT <= tag <= MULTIPLEOF
  {
    if tag == DEFAULT then n.(dflt := o) else if tag == MINIMUM then n.(minimum := o)
    else if tag == MAXIMUM then n.(maximum := o) else n.(multipleof := o)
  }

  lemma NumberWordReads(id: Byte, n: NumberOptions, tag: Byte, o: Opt<nat>, all: bool, cleared: nat, t: Text)
    requires DEFAULT <= tag <= MULTIPLEOF
    requires o.value < Power256(Width(id)) && cleared < Power256(Width(id))
    ensures TypeLoop(Number(id, n), In(WordEmit(o, all, tag, Width(id), cleared) + t)) ==
            TypeLoop(Number(id, WithWord(n, tag, Received(WordOf(n, tag), Sent(o, all, cleared)))), In(t))
  {
    hide BigEndian, ReadWord, TypeLoop, Width;
    var sent := Sent(o, all, cleared);
    if sent.Some? {
      var v := sent.value;
      WordReadsBack(v, Width(id), t, false);
      LoopTurn(Number(id, n), tag, BigEndian(v, Width(id)), t, Number(id, PlaceWord(n, tag, v)));
    } else {
      assert [] + t == t;
    }
  }

  lemma NumberScaleReads(id: Byte, n: NumberOptions, o: Opt<Byte>, all: bool, t: Text)
    ensures TypeLoop(Number(id, n), In(Emit(o, all, SCALE, [o.value], [0]) + t)) ==
            TypeLoop(Number(id, n.(scale := Received(n.scale, Sent(o, all, 0)))), In(t))
  {
    hide TypeLoop;
    var sent := Sent(o, all, 0);
    if sent.Some? {
      assert ([sent.value] + t)[1..] == t;
      LoopTurn(Number(id, n), SCALE, [sent.value], t, Number(id, n.(scale := Place(n.scale, sent.value))));
    } else {
      assert [] + t == t;
    }
  }

  lemma NumberUnitReads(id: Byte, n: NumberOptions, o: Opt<Text>, all: bool, t: Text)
    requires |o.value| <= Readable(TINY)
    ensures TypeLoop(Number(id, n), In(TextEmit(o, all, UNIT, TINY) + t)) ==
            TypeLoop(Number(id, n.(unit := Received(n.unit, Sent(o, all, [])))), In(t))
  {
    hide TypeLoop, StringBytes, ReadString;
    var sent := Sent(o, all, []);
    if sent.Some? {
      ReadableReadsBack(sent.value, TINY, t, false);
      LoopTurn(Number(id, n), UNIT, StringBytes(sent.value, TINY), t,
          Number(id, n.(unit := Place(n.unit, sent.value))));
    } else {
      assert [] + t == t;
    }
  }

  lemma LimitsFit(id: Byte)
    requires IsNumber(id)
    ensures LeastWord(id) < Power256(Width(id)) && GreatestWord(id) < Power256(Width(id)) && 0 < Power256(Width(id))
  {
    SmallPowers();
  }

  lemma Nested(a: Text, b: Text, c: Text, d: Text, e: Text, t: Text)
    ensures a + (b + (c + (d + e))) + t == a + (b + (c + (d + (e + t))))
  {
    assert d + e + t == d + (e + t);
    assert c + (d + e) + t == c + (d + e + t);
    assert b + (c + (d + e)) + t == b + (c + (d + e) + t);
  }

  lemma ScaleAndUnitRead(id: Byte, base: NumberOptions, n: NumberOptions, all: bool, t: Text)
    requires |n.unit.value| <= Readable(TINY)
    ensures TypeLoop(Number(id, base), In(ScaleAndUnitBytes(n, all) + t)) ==
            Done(Number(id, base.(scale := Received(base.scale, Sent(n.scale, all, 0)),
                                  unit := Received(base.unit, Sent(n.unit, all, [])))), In(t))
  {
    hide TypeLoop, TextEmit, Emit, Received, Sent;
    var e, f, z := Emit(n.scale, all, SCALE, [n.scale.value], [0]), TextEmit(n.unit, all, UNIT, TINY), [TERMINATOR] + t;
    assert ScaleAndUnitBytes(n, all) + t == e + (f + z);
    var n5 := base.(scale := Received(base.scale, Sent(n.scale, all, 0)));
    var n6 := n5.(unit := Received(base.unit, Sent(n.unit, all, [])));
    NumberScaleReads(id, base, n.scale, all, f + z);
    NumberUnitReads(id, n5, n.unit, all, z);
    LoopEnd(Number(id, n6), t);
  }

  lemma NumberReadsBack(id: Byte, n: NumberOptions, all: bool, t: Text)
    requires IsNumber(id) && SendableNumber(id, n)
    ensures TypeLoop(Number(id, FreshNumber(id)), In(NumberBytes(id, n, all) + t))
             == Done(Number(id, ReceivedNumber(id, n, all)), In(t))
  {
    hide TypeLoop, WordEmit, ScaleAndUnitBytes, Width, LeastWord, GreatestWord, Received, Sent, Power256;
    LimitsFit(id);
    var w, lo, hi := Width(id), LeastWord(id), GreatestWord(id);
    var a, b, c, d := WordEmit(n.dflt, all, DEFAULT, w, 0), WordEmit(n.minimum, all, MINIMUM, w, lo),
                      WordEmit(n.maximum, all, MAXIMUM, w, hi), WordEmit(n.multipleof, all, MULTIPLEOF, w, 0);
    var z := ScaleAndUnitBytes(n, all) + t;
    Nested(a, b, c, d, ScaleAndUnitBytes(n, all), t);
    var n0 := FreshNumber(id);
    var n1 := n0.(dflt := Received(n0.dflt, Sent(n.dflt, all, 0)));
    var n2 := n1.(minimum := Received(n1.minimum, Sent(n.minimum, all, lo)));
    var n3 := n2.(maximum := Received(n2.maximum, Sent(n.maximum, all, hi)));
    var n4 := n3.(multipleof := Received(n3.multipleof, Sent(n.multipleof, all, 0)));
    NumberWordReads(id, n0, DEFAULT, n.dflt, all, 0, b + (c + (d + z)));
    NumberWordReads(id, n1, MINIMUM, n.minimum, all, lo, c + (d + z));
    NumberWordReads(id, n2, MAXIMUM, n.maximum, all, hi, d + z);
    NumberWordReads(id, n3, MULTIPLEOF, n.multipleof, all, 0, z);
    ScaleAndUnitRead(id, n4, n, all, t);
  }

  // ---------------------------------------------------------------- the other kinds

  lemma PairReads(e: Byte, n: NumberOptions, base: Opt<(nat, nat)>, d: Opt<(nat, nat)>, all: bool, c: nat, t: Text)
    requires d.value.0 < Power256(Width(e)) && d.value.1 < Power256(Width(e)) && c < Power256(Width(e))
    ensures TypeLoop(Range(e, n, base),
             In(Emit(d, all, DEFAULT, PairBytes(d.value, Width(e)), PairBytes((c, c), Width(e))) + t)) ==
            TypeLoop(Range(e, n, Received(base, Sent(d, all, (c, c)))), In(t))
  {
    hide TypeLoop, BigEndian, ReadWord, Width, Power256;
    var sent := Sent(d, all, (c, c));
    if sent.Some? {
      var v, w := sent.value, Width(e);
      assert PairBytes(v, w) + t == BigEndian(v.0, w) + (BigEndian(v.1, w) + t);
      WordReadsBack(v.0, w, BigEndian(v.1, w) + t, false);
      WordReadsBack(v.1, w, t, false);
      LoopTurn(Range(e, n, base), DEFAULT, PairBytes(v, w), t, Range(e, n, Place(base, v)));
    } else {
      assert [] + t == t;
    }
  }

  lemma SimpleReads(id: Byte, d: Opt<nat>, all: bool, t: Text)
    requires d.value < Power256(Width(id))
    ensures TypeLoop(Simple(id, Fresh(0)), In(WordEmit(d, all, DEFAULT, Width(id), 0) + t)) ==
            TypeLoop(Simple(id, Received(Fresh(0), Sent(d, all, 0))), In(t))
  {
    hide TypeLoop, BigEndian, ReadWord, Width;
    var sent := Sent(d, all, 0);
    if sent.Some? {
      WordReadsBack(sent.value, Width(id), t, false);
      LoopTurn(Simple(id, Fresh(0)), DEFAULT, BigEndian(sent.value, Width(id)), t,
          Simple(id, Place(Fresh(0), sent.value)));
    } else {
      assert [] + t == t;
    }
  }

  // A string option of any type definition: `after` is the definition with the string placed.
  lemma TextReads(td: TypeDef, o: Opt<Text>, all: bool, tag: Byte, width: nat, t: Text, after: TypeDef)
    requires width == TINY || width == LONG
    requires tag != TERMINATOR && |o.value| <= Readable(width)
    requires Sent(o, all, []).None? ==> after == td
    requires Sent(o, all, []).Some? ==>
      TypeOption(td, tag, In(StringBytes(Sent(o, all, []).value, width) + t)) == Next(after, In(t))
    ensures TypeLoop(td, In(TextEmit(o, all, tag, width) + t)) == TypeLoop(after, In(t))
  {
    hide TypeLoop, StringBytes, TypeOption;
    var sent := Sent(o, all, []);
    if sent.Some? {
      LoopTurn(td, tag, StringBytes(sent.value, width), t, after);
    } else {
      assert [] + t == t;
    }
  }

  lemma StrReadsBack(d: Opt<Text>, regex: Opt<Text>, all: bool, t: Text)
    requires |d.value| <= Readable(LONG) && |regex.value| <= Readable(LONG)
    ensures TypeLoop(Str(Fresh([]), Fresh([])), In(TypeBytes(Str(d, regex), all) + t))
             == Done(ReceivedType(Str(d, regex), all), In(t))
  {
    hide TypeLoop, TextEmit, StringBytes, ReadString, Emit;
    var a, b, z := TextEmit(d, all, DEFAULT, LONG), TextEmit(regex, all, REGEX, LONG), [TERMINATOR] + t;
    assert TypeBytes(Str(d, regex), all) + t == a + (b + z);
    var s0 := Str(Fresh([]), Fresh([]));
    var s1 := Str(Received(Fresh([]), Sent(d, all, [])), Fresh([]));
    var s2 := Str(s1.text, Received(Fresh([]), Sent(regex, all, [])));
    if Sent(d, all, []).Some? { ReadableReadsBack(Sent(d, all, []).value, LONG, b + z, false); }
    TextReads(s0, d, all, DEFAULT, LONG, b + z, s1);
    if Sent(regex, all, []).Some? { ReadableReadsBack(Sent(regex, all, []).value, LONG, z, false); }
    TextReads(s1, regex, all, REGEX, LONG, z, s2);
    LoopEnd(s2, t);
  }

  lemma SchemasRead(d: Opt<Text>, f: Opt<Text>, ss: seq<Text>, c: bool, all: bool, t: Text)
    requires ss != [] ==> |Join(ss)| <= Readable(TINY) && forall k :: 0 <= k < |ss| ==> Token(ss[k])
    ensures TypeLoop(UriType(d, f, [], false), In(SchemaEmit(ss, c, all) + t)) ==
            TypeLoop(UriType(d, f, if all || c then ss else [], false), In(t))
  {
    hide TypeLoop, StringBytes, ReadString;
    var td := UriType(d, f, [], false);
    if ss != [] && (all || c) {
      ReadableReadsBack(Join(ss), TINY, t, false);
      SplitOfJoin(ss);
      LoopTurn(td, SCHEMA, StringBytes(Join(ss), TINY), t, UriType(d, f, ss, false));
    } else if ss == [] && c {
      ReadableReadsBack([], TINY, t, false);
      LoopTurn(td, SCHEMA, StringBytes([], TINY), t, td);
    } else {
      assert [] + t == t;
    }
  }

  lemma UriReadsBack(d: Opt<Text>, f: Opt<Text>, ss: seq<Text>, c: bool, all: bool, t: Text)
    requires SendableType(UriType(d, f, ss, c))
    ensures TypeLoop(UriType(Fresh([]), Fresh([]), [], false), In(TypeBytes(UriType(d, f, ss, c), all) + t)) ==
            Done(ReceivedType(UriType(d, f, ss, c), all), In(t))
  {
    hide TypeLoop, TextEmit, SchemaEmit, StringBytes, ReadString, Emit, Split, Join, Token;
    var a, b, e := TextEmit(d, all, DEFAULT, LONG), TextEmit(f, all, FILTER, TINY), SchemaEmit(ss, c, all);
    var z := [TERMINATOR] + t;
    assert TypeBytes(UriType(d, f, ss, c), all) + t == a + (b + (e + z));
    var u0 := UriType(Fresh([]), Fresh([]), [], false);
    var u1 := UriType(Received(Fresh([]), Sent(d, all, [])), Fresh([]), [], false);
    var u2 := UriType(u1.text, Received(Fresh([]), Sent(f, all, [])), [], false);
    if Sent(d, all, []).Some? { ReadableReadsBack(Sent(d, all, []).value, LONG, b + (e + z), false); }
    TextReads(u0, d, all, DEFAULT, LONG, b + (e + z), u1);
    if Sent(f, all, []).Some? { ReadableReadsBack(Sent(f, all, []).value, TINY, e + z, false); }
    TextReads(u1, f, all, FILTER, TINY, e + z, u2);
    SchemasRead(u2.text, u2.filter, ss, c, all, z);
    LoopEnd(ReceivedType(UriType(d, f, ss, c), all), t);
  }

  lemma RangeReadsBack(e: Byte, n: NumberOptions, d: Opt<(nat, nat)>, all: bool, t: Text)
    requires SendableType(Range(e, n, d))
    ensures ParseType(FreshType(Range(e, n, d)), In(TypeBytes(Range(e, n, d), all) + t))
             == Done(ReceivedType(Range(e, n, d), all), In(t))
  {
    hide TypeLoop, NumberBytes, Emit, PairBytes, Width, Power256;
    var c := ClearedRange(n);
    var a, b := NumberBytes(e, n, all),
        Emit(d, all, DEFAULT, PairBytes(d.value, Width(e)), PairBytes((c, c), Width(e)));
    var z := [TERMINATOR] + t;
    assert TypeBytes(Range(e, n, d), all) + t == a + (b + z);
    NumberReadsBack(e, n, all, b + z);
    PairReads(e, ReceivedNumber(e, n, all), Fresh((0, 0)), d, all, c, z);
    LoopEnd(ReceivedType(Range(e, n, d), all), t);
  }

  // For every sendable type definition, full or delta, and whatever follows on the stream.
  lemma TypeReadsBack(td: TypeDef, all: bool, t: Text)
    requires SendableType(td)
    ensures ParseType(FreshType(td), In(TypeBytes(td, all) + t)) == Done(ReceivedType(td, all), In(t))
  {
    match td
    case Number(id, n) => NumberReadsBack(id, n, all, t);
    case Range(e, n, d) => RangeReadsBack(e, n, d, all, t);
    case Simple(id, d) =>
      var z := [TERMINATOR] + t;
      assert TypeBytes(td, all) + t == WordEmit(d, all, DEFAULT, Width(id), 0) + z;
      SimpleReads(id, d, all, z);
      LoopEnd(ReceivedType(td, all), t);
    case Str(d, regex) => StrReadsBack(d, regex, all, t);
    case UriType(d, f, ss, c) => UriReadsBack(d, f, ss, c, all, t);
    case NoOptions(_) => assert (TypeBytes(td, all) + t)[1..] == t;
  }
}
