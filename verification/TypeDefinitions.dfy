/** Type definitions and their option lists: src/rabbitControl/type_number.h, type_range.h,
    type_default.h, type_string.h, type_uri.h and type_noopt.h.

    Numbers, colours, addresses and booleans are words of a fixed number of octets: two's
    complement for the signed ones, the IEEE pattern for floats. */
module TypeDefinitions {
  import opened Bytes
  import opened Streams
  import opened Options

  const BOOLEAN: Byte := 16
  const INT8: Byte := 17
  const UINT8: Byte := 18
  const INT16: Byte := 19
  const UINT16: Byte := 20
  const INT32: Byte := 21
  const UINT32: Byte := 22
  const INT64: Byte := 23
  const UINT64: Byte := 24
  const FLOAT32: Byte := 25
  const FLOAT64: Byte := 26
  const STRING: Byte := 33
  const RGB: Byte := 34
  const RGBA: Byte := 35
  const ENUM: Byte := 36
  const BANG: Byte := 39
  const GROUP: Byte := 40
  const URI: Byte := 42
  const IPV4: Byte := 43
  const IPV6: Byte := 44
  const RANGE: Byte := 45
  const DATATYPE_MAX: Byte := 47

  const TERMINATOR: Byte := 0
  const DEFAULT: Byte := 48
  const MINIMUM: Byte := 49
  const MAXIMUM: Byte := 50
  const MULTIPLEOF: Byte := 51
  const SCALE: Byte := 52
  const UNIT: Byte := 53
  const REGEX: Byte := 49
  const FILTER: Byte := 49
  const SCHEMA: Byte := 50

  predicate IsNumber(id: Byte) { INT8 <= id <= FLOAT64 }

  predicate IsSimple(id: Byte) { id == BOOLEAN || id == RGB || id == RGBA || id == IPV4 || id == IPV6 }

  predicate HasNoOptions(id: Byte) { id == BANG || id == GROUP }

  // Octets of one value.
  function Width(id: Byte): (r: nat)
    ensures 1 <= r <= 16
  {
    if id == INT8 || id == UINT8 || id == BOOLEAN then 1
    else if id == INT16 || id == UINT16 then 2
    else if id == INT64 || id == UINT64 || id == FLOAT64 then 8
    else if id == IPV6 then 16
    else 4
  }

  // std::numeric_limits<T>::min() and max(), as words
  function LeastWord(id: Byte): (r: nat) {
    if id == INT8 then 0x80 else if id == INT16 then 0x8000 else if id == INT32 then 0x8000_0000
    else if id == INT64 then 0x8000_0000_0000_0000
    else if id == FLOAT32 then 0x0080_0000 else if id == FLOAT64 then 0x0010_0000_0000_0000 else 0
  }

  function GreatestWord(id: Byte): (r: nat) {
    if id == INT8 then 0x7F else if id == UINT8 then 0xFF
    else if id == INT16 then 0x7FFF else if id == UINT16 then 0xFFFF
    else if id == INT32 then 0x7FFF_FFFF else if id == UINT32 then 0xFFFF_FFFF
    else if id == INT64 then 0x7FFF_FFFF_FFFF_FFFF else if id == UINT64 then 0xFFFF_FFFF_FFFF_FFFF
    else if id == FLOAT32 then 0x7F7F_FFFF else 0x7FEF_FFFF_FFFF_FFFF
  }

  datatype NumberOptions = NumberOptions(dflt: Opt<nat>, minimum: Opt<nat>, maximum: Opt<nat>, multipleof: Opt<nat>,
                                         scale: Opt<Byte>, unit: Opt<Text>)

  datatype TypeDef =
    | Number(id: Byte, num: NumberOptions)
    | Range(element: Byte, num: NumberOptions, range: Opt<(nat, nat)>)
    | Simple(id: Byte, word: Opt<nat>)
    | Str(text: Opt<Text>, regex: Opt<Text>)
    | UriType(text: Opt<Text>, filter: Opt<Text>, schemas: seq<Text>, schemasChanged: bool)
    | NoOptions(id: Byte)

  ghost predicate ValidType(td: TypeDef) {
    match td
    case Number(id, _) => IsNumber(id)
    case Range(e, _, _) => IsNumber(e)
    case Simple(id, _) => IsSimple(id)
    case NoOptions(id) => HasNoOptions(id)
    case _ => true
  }

  function Datatype(td: TypeDef): (r: Byte) {
    match td
    case Number(id, _) => id
    case Range(_, _, _) => RANGE
    case Simple(id, _) => id
    case Str(_, _) => STRING
    case UriType(_, _, _, _) => URI
    case NoOptions(id) => id
  }

  // writeMandatory
  function Mandatory(td: TypeDef): (r: Text) {
    if td.Range? then [RANGE] + [td.element] else [Datatype(td)]
  }

  // ---------------------------------------------------------------- a schema list as one string

  predicate Blank(b: Byte) { b == 32 || 9 <= b <= 13 }

  predicate Token(s: Text) { s != [] && forall k :: 0 <= k < |s| ==> !Blank(s[k]) }

  function Join(ss: seq<Text>): (r: Text)
    requires ss != []
  {
    if |ss| == 1 then ss[0] else ss[0] + ([32] + Join(ss[1..]))
  }

  // istream_iterator<std::string>: the tokens between blanks, `word` being the one begun
  function Split(s: Text, word: Text): (r: seq<Text>) {
    if s == [] then (if word == [] then [] else [word])
    else if Blank(s[0]) then (if word == [] then Split(s[1..], []) else [word] + Split(s[1..], []))
    else Split(s[1..], word + [s[0]])
  }

  lemma {:induction false} SplitGivesTokens(s: Text, word: Text)
    requires word == [] || Token(word)
    ensures forall k :: 0 <= k < |Split(s, word)| ==> Token(Split(s, word)[k])
    decreases |s|
  {
    if s != [] {
      if Blank(s[0]) { SplitGivesTokens(s[1..], []); } else { SplitGivesTokens(s[1..], word + [s[0]]); }
    }
  }

  lemma {:induction false} SplitToken(a: Text, rest: Text, word: Text)
    requires forall k :: 0 <= k < |a| ==> !Blank(a[k])
    ensures Split(a + rest, word) == Split(rest, word + a)
    decreases |a|
  {
    if a == [] {
      assert a + rest == rest && word + a == word;
    } else {
      assert (a + rest)[1..] == a[1..] + rest;
      SplitToken(a[1..], rest, word + [a[0]]);
      assert word + [a[0]] + a[1..] == word + a;
    }
  }

  lemma {:induction false} SplitOfJoin(ss: seq<Text>)
    requires ss != [] && forall k :: 0 <= k < |ss| ==> Token(ss[k])
    ensures Split(Join(ss), []) == ss
  {
    assert [] + ss[0] == ss[0];
    if |ss| == 1 {
      SplitToken(ss[0], [], []);
      assert ss[0] + [] == ss[0];
    } else {
      var tail := [32] + Join(ss[1..]);
      SplitToken(ss[0], tail, []);
      assert tail[1..] == Join(ss[1..]);
      SplitOfJoin(ss[1..]);
    }
  }

  // Joining and splitting gives back exactly the lists of blank-free, non-empty schemas.
  lemma SchemasRoundTripIff(ss: seq<Text>)
    requires ss != []
    ensures Split(Join(ss), []) == ss <==> forall k :: 0 <= k < |ss| ==> Token(ss[k])
  {
    SplitGivesTokens(Join(ss), []);
    if forall k :: 0 <= k < |ss| ==> Token(ss[k]) { SplitOfJoin(ss); }
  }

  // ---------------------------------------------------------------- writing

  function WordEmit(o: Opt<nat>, all: bool, tag: Byte, width: nat, cleared: nat): (r: Text) {
    Emit(o, all, tag, BigEndian(o.value, width), BigEndian(cleared, width))
  }

  function TextEmit(o: Opt<Text>, all: bool, tag: Byte, width: nat): (r: Text)
    requires width == TINY || width == SHORT || width == LONG
  {
    Emit(o, all, tag, StringBytes(o.value, width), StringBytes([], width))
  }

  function NumberBytes(id: Byte, n: NumberOptions, all: bool): (r: Text) {
    WordEmit(n.dflt, all, DEFAULT, Width(id), 0)
    + (WordEmit(n.minimum, all, MINIMUM, Width(id), LeastWord(id))
    + (WordEmit(n.maximum, all, MAXIMUM, Width(id), GreatestWord(id))
    + (WordEmit(n.multipleof, all, MULTIPLEOF, Width(id), 0)
    + ScaleAndUnitBytes(n, all))))
  }

  function ScaleAndUnitBytes(n: NumberOptions, all: bool): (r: Text) {
    Emit(n.scale, all, SCALE, [n.scale.value], [0]) + (TextEmit(n.unit, all, UNIT, TINY) + [TERMINATOR])
  }

  // The default a cleared range writes twice.
  function ClearedRange(n: NumberOptions): (r: nat) { if n.dflt.has then n.dflt.value else 0 }

  function PairBytes(p: (nat, nat), width: nat): (r: Text) { BigEndian(p.0, width) + BigEndian(p.1, width) }

  function RangeBytes(id: Byte, n: NumberOptions, d: Opt<(nat, nat)>, all: bool): (r: Text) {
    var c := ClearedRange(n);
    NumberBytes(id, n, all)
    + (Emit(d, all, DEFAULT, PairBytes(d.value, Width(id)), PairBytes((c, c), Width(id))) + [TERMINATOR])
  }

  function SchemaEmit(schemas: seq<Text>, changed: bool, all: bool): (r: Text) {
    if schemas != [] then (if all || changed then [SCHEMA] + StringBytes(Join(schemas), TINY) else [])
    else if changed then [SCHEMA] + StringBytes([], TINY) else []
  }

  // Everything write() puts after the mandatory part, with the terminator.
  function TypeBytes(td: TypeDef, all: bool): (r: Text) {
    match td
    case Number(id, n) => NumberBytes(id, n, all)
    case Range(e, n, d) => RangeBytes(e, n, d, all)
    case Simple(id, d) => WordEmit(d, all, DEFAULT, Width(id), 0) + [TERMINATOR]
    case Str(d, regex) => TextEmit(d, all, DEFAULT, LONG) + (TextEmit(regex, all, REGEX, LONG) + [TERMINATOR])
    case UriType(d, f, ss, c) =>
      TextEmit(d, all, DEFAULT, LONG) + (TextEmit(f, all, FILTER, TINY) + (SchemaEmit(ss, c, all) + [TERMINATOR]))
    case NoOptions(_) => [TERMINATOR]
  }

  function FlushedNumber(n: NumberOptions, all: bool): (r: NumberOptions) {
    NumberOptions(Flushed(n.dflt, all), Flushed(n.minimum, all), Flushed(n.maximum, all), Flushed(n.multipleof, all),
                  Flushed(n.scale, all), Flushed(n.unit, all))
  }

  function FlushedType(td: TypeDef, all: bool): (r: TypeDef) {
    match td
    case Number(id, n) => Number(id, FlushedNumber(n, all))
    case Range(e, n, d) => Range(e, FlushedNumber(n, all), Flushed(d, all))
    case Simple(id, d) => Simple(id, Flushed(d, all))
    case Str(d, regex) => Str(Flushed(d, all), Flushed(regex, all))
    case UriType(d, f, ss, c) => UriType(Flushed(d, all), Flushed(f, all), ss, c && ss != [] && all)
    case NoOptions(_) => td
  }

  function NumberChanged(n: NumberOptions): (r: bool) {
    n.dflt.changed || n.minimum.changed || n.maximum.changed || n.multipleof.changed || n.scale.changed
        || n.unit.changed
  }

  // anyOptionChanged
  function TypeChanged(td: TypeDef): (r: bool) {
    match td
    case Number(_, n) => NumberChanged(n)
    case Range(_, n, d) => NumberChanged(n) || d.changed
    case Simple(_, d) => d.changed
    case Str(d, regex) => d.changed || regex.changed
    case UriType(d, f, _, c) => d.changed || f.changed || c
    case NoOptions(_) => false
  }

  // ---------------------------------------------------------------- parsing

  datatype Step<+T> = Next(value: T, stream: Stream) | Broken

  datatype Parsed<+T> = Done(value: T, stream: Stream) | Failed

  // One switch of a parse loop, after the option's tag: a value cut short is thrown away.
  function NumberOption(id: Byte, n: NumberOptions, tag: Byte, s: Stream): (r: Step<NumberOptions>)
    ensures r.Next? ==> |r.stream.rest| <= |s.rest|
  {
    if tag == SCALE then
      match Get(s) {
        case (Some(b), next) => Next(n.(scale := Place(n.scale, b)), next)
        case (None, next) => Next(n, next)
      }
    else if tag == UNIT then
      match ReadString(s, TINY) {
        case Got(v, next) => Next(n.(unit := Place(n.unit, v)), next)
        case Short(_, next) => Next(n, next)
        case Fault => Broken
      }
    else if DEFAULT <= tag <= MULTIPLEOF then
      match ReadWord(s, Width(id)) {
        case Got(v, next) => Next(PlaceWord(n, tag, v), next)
        case Short(_, next) => Next(n, next)
      }
    else Next(n, s)
  }

  function PlaceWord(n: NumberOptions, tag: Byte, v: nat): (r: NumberOptions)
    requires DEFAULT <= tag <= MULTIPLEOF
  {
    if tag == DEFAULT then n.(dflt := Place(n.dflt, v))
    else if tag == MINIMUM then n.(minimum := Place(n.minimum, v))
    else if tag == MAXIMUM then n.(maximum := Place(n.maximum, v))
    else n.(multipleof := Place(n.multipleof, v))
  }

  function TypeOption(td: TypeDef, tag: Byte, s: Stream): (r: Step<TypeDef>)
    ensures r.Next? ==> |r.stream.rest| <= |s.rest|
  {
    match td
    case Number(id, n) =>
      (match NumberOption(id, n, tag, s)
       case Next(n', next) => Next(Number(id, n'), next)
       case Broken => Broken)
    case Range(e, n, d) =>
      if tag != DEFAULT then Next(td, s)
      else
        (match ReadWord(s, Width(e))
         case Short(_, next) => Next(td, next)
         case Got(v1, mid) =>
           match ReadWord(mid, Width(e))
           case Short(_, next) => Next(td, next)
           case Got(v2, next) => Next(Range(e, n, Place(d, (v1, v2))), next))
    case Simple(id, d) =>
      if tag != DEFAULT then Next(td, s)
      else
        (match ReadWord(s, Width(id))
         case Short(_, next) => Next(td, next)
         case Got(v, next) => Next(Simple(id, Place(d, v)), next))
    case Str(d, regex) =>
      if tag != DEFAULT && tag != REGEX then Next(td, s)
      else
        (match ReadString(s, LONG)
         case Short(_, next) => Next(td, next)
         case Got(v, next) => Next(if tag == DEFAULT then Str(Place(d, v), regex) else Str(d, Place(regex, v)), next)
         case Fault => Broken)
    case UriType(d, f, ss, c) =>
      if tag != DEFAULT && tag != FILTER && tag != SCHEMA then Next(td, s)
      else
        (match ReadString(s, if tag == DEFAULT then LONG else TINY)
         case Short(_, next) => Next(td, next)
         case Got(v, next) =>
           Next(if tag == DEFAULT then UriType(Place(d, v), f, ss, c)
                else if tag == FILTER then UriType(d, Place(f, v), ss, c)
                else UriType(d, f, Split(v, []), c), next)
         case Fault => Broken)
    case NoOptions(_) => Next(td, s)
  }

  // while (!is.eof()): a tag, then its value, until the terminator or the end of the data.
  function TypeLoop(td: TypeDef, s: Stream): (r: Parsed<TypeDef>)
    ensures r.Done? ==> |r.stream.rest| <= |s.rest|
    decreases |s.rest|
  {
    if s.eof then Done(td, s)
    else
      var (tag, next) := Get(s);
      if tag.None? || tag.value == TERMINATOR then Done(td, next)
      else
        match TypeOption(td, tag.value, next)
        case Next(td', next') => TypeLoop(td', next')
        case Broken => Failed
  }

  // parseOptions
  function ParseType(td: TypeDef, s: Stream): (r: Parsed<TypeDef>)
    ensures r.Done? ==> |r.stream.rest| <= |s.rest|
  {
    match td
    case Range(e, n, d) =>
      (match TypeLoop(Number(e, n), s)
       case Failed => Failed
       case Done(element, next) => if element.Number? then TypeLoop(Range(e, element.num, d), next) else Failed)
    case NoOptions(_) => Done(td, Get(s).1)
    case _ => TypeLoop(td, s)
  }

  // ---------------------------------------------------------------- the factory

  function FreshNumber(id: Byte): (r: NumberOptions) {
    NumberOptions(Fresh(0), Fresh(LeastWord(id)), Fresh(GreatestWord(id)), Fresh(0), Fresh(0), Fresh([]))
  }

  // The type definition createParameter and createRangeParameter start from.
  function FreshType(td: TypeDef): (r: TypeDef) {
    match td
    case Number(id, _) => Number(id, FreshNumber(id))
    case Range(e, _, _) => Range(e, FreshNumber(e), Fresh((0, 0)))
    case Simple(id, _) => Simple(id, Fresh(0))
    case Str(_, _) => Str(Fresh([]), Fresh([]))
    case UriType(_, _, _, _) => UriType(Fresh([]), Fresh([]), [], false)
    case NoOptions(id) => NoOptions(id)
  }

  // ---------------------------------------------------------------- what the other side learns

  function ReceivedNumber(id: Byte, n: NumberOptions, all: bool): (r: NumberOptions) {
    var f := FreshNumber(id);
    NumberOptions(Received(f.dflt, Sent(n.dflt, all, 0)),
                  Received(f.minimum, Sent(n.minimum, all, LeastWord(id))),
                  Received(f.maximum, Sent(n.maximum, all, GreatestWord(id))),
                  Received(f.multipleof, Sent(n.multipleof, all, 0)),
                  Received(f.scale, Sent(n.scale, all, 0)),
                  Received(f.unit, Sent(n.unit, all, [])))
  }

  function ReceivedType(td: TypeDef, all: bool): (r: TypeDef) {
    match td
    case Number(id, n) => Number(id, ReceivedNumber(id, n, all))
    case Range(e, n, d) =>
      var c := ClearedRange(n);
      Range(e, ReceivedNumber(e, n, all), Received(Fresh((0, 0)), Sent(d, all, (c, c))))
    case Simple(id, d) => Simple(id, Received(Fresh(0), Sent(d, all, 0)))
    case Str(d, regex) => Str(Received(Fresh([]), Sent(d, all, [])), Received(Fresh([]), Sent(regex, all, [])))
    case UriType(d, f, ss, c) =>
      UriType(Received(Fresh([]), Sent(d, all, [])), Received(Fresh([]), Sent(f, all, [])),
              if all || c then ss else [], false)
    case NoOptions(_) => td
  }

  // Values that fit their width and strings within the bounds of their readers.
  ghost predicate SendableNumber(id: Byte, n: NumberOptions) {
    && n.dflt.value < Power256(Width(id)) && n.minimum.value < Power256(Width(id))
    && n.maximum.value < Power256(Width(id)) && n.multipleof.value < Power256(Width(id))
    && |n.unit.value| <= Readable(TINY)
  }

  ghost predicate SendableType(td: TypeDef) {
    ValidType(td) &&
    match td
    case Number(id, n) => SendableNumber(id, n)
    case Range(e, n, d) => SendableNumber(e, n) && d.value.0 < Power256(Width(e)) && d.value.1 < Power256(Width(e))
    case Simple(id, d) => d.value < Power256(Width(id))
    case Str(d, regex) => |d.value| <= Readable(LONG) && |regex.value| <= Readable(LONG)
    case UriType(d, f, ss, c) =>
      && |d.value| <= Readable(LONG) && |f.value| <= Readable(TINY)
      && (ss != [] ==> |Join(ss)| <= Readable(TINY) && forall k :: 0 <= k < |ss| ==> Token(ss[k]))
    case NoOptions(_) => true
  }
}
