/** A parameter with its optional fields, and what writing it and parsing it do:
    src/rabbitControl/parameter_intern.h, parameter_parser.h and parameterfactory.cpp. */
module Parameters {
  import opened Bytes
  import opened Streams
  import opened Options
  import opened TypeDefinitions
  import opened Forest

  const VALUE: Byte := 32
  const LABEL: Byte := 33
  const DESCRIPTION: Byte := 34
  const TAGS: Byte := 35
  const ORDER: Byte := 36
  const PARENTID: Byte := 37
  const WIDGET: Byte := 38
  const USERDATA: Byte := 39
  const USERID: Byte := 40
  const READONLY: Byte := 41

  // "any", the code of the label without a language
  const ANY: Text := [97, 110, 121]

  // A value of a value parameter: a word, a string, or the two ends of a range.
  datatype Value = OneWord(word: nat) | OneText(text: Text) | Ends(lower: nat, upper: nat) | NoValue

  // A label or a description: the text for "any" and those by language, under one flag.
  datatype Labelled = Labelled(main: Opt<Text>, languages: map<Text, Text>)

  datatype Param = Param(id: Id, td: TypeDef, value: Opt<Value>, title: Labelled, description: Labelled,
                         tags: Opt<Text>, order: Opt<nat>, parent: Opt<Id>, userdata: Text, userdataChanged: bool,
                         userid: Opt<Text>, readonly: Opt<bool>)

  predicate IsValueType(td: TypeDef) { !td.NoOptions? }

  // T value{}
  function InitialValue(td: TypeDef): (r: Value) {
    match td
    case Number(_, _) => OneWord(0)
    case Simple(_, _) => OneWord(0)
    case Range(_, _, _) => Ends(0, 0)
    case NoOptions(_) => NoValue
    case _ => OneText([])
  }

  // The constructor of a parameter.
  function FreshParam(id: Id, td: TypeDef): (r: Param) {
    Param(id, td, Fresh(InitialValue(td)), Labelled(Fresh([]), map[]), Labelled(Fresh([]), map[]),
          Fresh([]), Fresh(0), Fresh(ROOT), [], false, Fresh([]), Fresh(false))
  }

  // int16_t on the wire
  function Unsigned(id: Id): (r: nat) { if id >= 0 then id else id + 0x1_0000 }

  function ToId(n: nat): (r: Id)
    requires n < 0x1_0000
  {
    if n < 0x8000 then n else n - 0x1_0000
  }

  // ---------------------------------------------------------------- std::map's order of keys

  // std::string's operator<=
  predicate NotAfter(a: Text, b: Text) {
    a == [] || (b != [] && (a[0] < b[0] || (a[0] == b[0] && NotAfter(a[1..], b[1..]))))
  }

  // A text goes before another that it begins, or that has a greater octet where they first differ.
  lemma {:induction false} NotAfterMeans(a: Text, b: Text)
    ensures NotAfter(a, b) <==> a <= b || exists k :: 0 <= k < |a| && k < |b| && a[..k] == b[..k] && a[k] < b[k]
  {
    if a != [] && b != [] && a[0] == b[0] {
      NotAfterMeans(a[1..], b[1..]);
      if k :| 0 <= k < |a| && k < |b| && a[..k] == b[..k] && a[k] < b[k] {
        assert k > 0 && a[1..][..k - 1] == a[..k][1..] && b[1..][..k - 1] == b[..k][1..];
        assert a[1..][k - 1] < b[1..][k - 1];
      }
      if k :| 0 <= k < |a[1..]| && k < |b[1..]| && a[1..][..k] == b[1..][..k] && a[1..][k] < b[1..][k] {
        assert a[..k + 1] == [a[0]] + a[1..][..k] && b[..k + 1] == [b[0]] + b[1..][..k];
        assert a[k + 1] < b[k + 1];
      }
    } else if a != [] && b != [] && a[0] < b[0] {
      assert a[..0] == b[..0];
    } else if a != [] && b != [] {
      assert forall k :: 0 < k < |a| && k < |b| ==> a[..k][0] == a[0] && b[..k][0] == b[0];
    }
  }

  lemma {:induction false} NotAfterOrders(a: Text, b: Text, c: Text)
    ensures NotAfter(a, a)
    ensures NotAfter(a, b) || NotAfter(b, a)
    ensures NotAfter(a, b) && NotAfter(b, a) ==> a == b
    ensures NotAfter(a, b) && NotAfter(b, c) ==> NotAfter(a, c)
  {
    if a != [] {
      NotAfterOrders(a[1..], if b == [] then [] else b[1..], if c == [] then [] else c[1..]);
      assert a == [a[0]] + a[1..] && (b != [] ==> b == [b[0]] + b[1..]);
    }
  }

  predicate IsFirst(k: Text, keys: set<Text>) { k in keys && forall x :: x in keys ==> NotAfter(k, x) }

  lemma {:induction false} SomeKeyIsFirst(keys: set<Text>)
    requires keys != {}
    ensures exists k :: IsFirst(k, keys)
    decreases keys
  {
    var a :| a in keys;
    var r := a;
    NotAfterOrders(a, a, a);
    if keys != {a} {
      SomeKeyIsFirst(keys - {a});
      var b :| IsFirst(b, keys - {a});
      NotAfterOrders(a, b, b);
      r := if NotAfter(a, b) then a else b;
      forall x | x in keys
        ensures NotAfter(r, x)
      {
        NotAfterOrders(a, b, x);
        if x != a { assert x in keys - {a}; }
      }
    }
    assert IsFirst(r, keys);
  }

  lemma OneKeyIsFirst(keys: set<Text>)
    ensures forall a, b :: IsFirst(a, keys) && IsFirst(b, keys) ==> a == b
  {
    forall a, b | IsFirst(a, keys) && IsFirst(b, keys)
      ensures a == b
    {
      NotAfterOrders(a, b, b);
    }
  }

  function FirstKey(keys: set<Text>): (r: Text)
    requires keys != {}
    ensures IsFirst(r, keys)
  {
    SomeKeyIsFirst(keys);
    OneKeyIsFirst(keys);
    var k :| k in keys && IsFirst(k, keys);
    k
  }

  // ---------------------------------------------------------------- writing

  // Value::writeValue
  function ValueBytes(td: TypeDef, v: Value): (r: Text) {
    match td
    case Number(id, _) => if v.OneWord? then BigEndian(v.word, Width(id)) else []
    case Simple(id, _) => if v.OneWord? then BigEndian(v.word, Width(id)) else []
    case Range(e, _, _) => if v.Ends? then PairBytes((v.lower, v.upper), Width(e)) else []
    case NoOptions(_) => []
    case _ => if v.OneText? then PrefixedBytes(v.text) else []
  }

  function IdBytes(id: Id): (r: Text) { BigEndian(Unsigned(id), 2) }

  // One text: its code is cut to three octets, and one with a shorter code is skipped.
  function LanguageEntry(k: Text, v: Text, width: nat): (r: Text)
    requires width == TINY || width == SHORT
  {
    if |k| < 3 then [] else k[..3] + StringBytes(v, width)
  }

  // The texts by language, in the order of their codes.
  function LanguageBytes(m: map<Text, Text>, width: nat): (r: Text)
    requires width == TINY || width == SHORT
    decreases m.Keys
  {
    if m.Keys == {} then [] else
      var k := FirstKey(m.Keys);
      LanguageEntry(k, m[k], width) + LanguageBytes(m - {k}, width)
  }

  function LabelBytes(l: Labelled, width: nat): (r: Text)
    requires width == TINY || width == SHORT
  {
    (if l.main.has then ANY + StringBytes(l.main.value, width)
        else []) + (LanguageBytes(l.languages, width) + [TERMINATOR])
  }

  predicate HasLabel(l: Labelled) { l.main.has || l.languages != map[] }

  function LabelEmit(l: Labelled, all: bool, tag: Byte, width: nat): (r: Text)
    requires width == TINY || width == SHORT
  {
    if HasLabel(l) then (if all || l.main.changed then [tag] + LabelBytes(l, width) else [])
    else if l.main.changed then [tag] + [TERMINATOR] else []
  }

  function FlushedLabel(l: Labelled, all: bool): (r: Labelled) {
    if HasLabel(l) && all then l else l.(main := l.main.(changed := false))
  }

  function UserdataEmit(data: Text, changed: bool, all: bool): (r: Text) {
    if data != [] then (if all || changed then [USERDATA] + data else [])
    else if changed then [USERDATA] + BigEndian(0, 4) else []
  }

  function ValueEmit(td: TypeDef, o: Opt<Value>, all: bool): (r: Text) {
    if IsValueType(td) then Emit(o, all, VALUE, ValueBytes(td, o.value), ValueBytes(td, o.value)) else []
  }

  function Bool(b: bool): (r: Byte) { if b then 1 else 0 }

  // Everything after the type definition, with the terminator.
  function OptionBytes(p: Param, all: bool): (r: Text) {
    ValueEmit(p.td, p.value, all)
    + (LabelEmit(p.title, all, LABEL, TINY)
    + (LabelEmit(p.description, all, DESCRIPTION, SHORT)
    + (TextEmit(p.tags, all, TAGS, TINY)
    + (WordEmit(p.order, all, ORDER, 4, 0)
    + LateOptionBytes(p, all)))))
  }

  function LateOptionBytes(p: Param, all: bool): (r: Text) {
    Emit(p.parent, all, PARENTID, IdBytes(p.parent.value), IdBytes(ROOT))
    + (UserdataEmit(p.userdata, p.userdataChanged, all)
    + (TextEmit(p.userid, all, USERID, TINY)
    + (Emit(p.readonly, all, READONLY, [Bool(p.readonly.value)], [0])
    + [TERMINATOR])))
  }

  function AnyOptionChanged(p: Param): (r: bool) {
    p.title.main.changed || p.description.main.changed || p.tags.changed || p.order.changed || p.parent.changed
    || p.userdataChanged || p.userid.changed || p.readonly.changed
  }

  predicate OnlyValueChanged(p: Param) {
    IsValueType(p.td) && !AnyOptionChanged(p) && !TypeChanged(p.td) && p.value.changed
  }

  function ShortBytes(p: Param): (r: Text) {
    IdBytes(p.id) + (Mandatory(p.td) + ValueBytes(p.td, p.value.value))
  }

  function LongBytes(p: Param, all: bool): (r: Text) {
    IdBytes(p.id) + (Mandatory(p.td) + (TypeBytes(p.td, all) + OptionBytes(p, all)))
  }

  // write
  function ParamBytes(p: Param, all: bool): (r: Text) {
    if OnlyValueChanged(p) then ShortBytes(p) else LongBytes(p, all)
  }

  // The flags after the options were written.
  function FlushedOptions(p: Param, all: bool): (r: Param) {
    p.(value := if IsValueType(p.td) then Flushed(p.value, all) else p.value,
       title := FlushedLabel(p.title, all), description := FlushedLabel(p.description, all),
       tags := Flushed(p.tags, all), order := Flushed(p.order, all), parent := Flushed(p.parent, all),
       userdataChanged := p.userdataChanged && p.userdata != [] && all,
       userid := Flushed(p.userid, all), readonly := Flushed(p.readonly, all))
  }

  function FlushedParam(p: Param, all: bool): (r: Param) {
    if OnlyValueChanged(p) then p.(value := p.value.(changed := false))
    else FlushedOptions(p, all).(td := FlushedType(p.td, all))
  }

  // ---------------------------------------------------------------- parsing

  // After an option: the loop goes on, parseOptions returns, or the outcome is not defined.
  datatype Turn = Again(p: Param, stream: Stream) | Stop(p: Param, stream: Stream) | Undefined

  // readValue
  function ReadValue(td: TypeDef, s: Stream): (r: Read<Value>)
    ensures !r.Fault? ==> |r.next.rest| <= |s.rest|
    ensures r.Short? ==> r.next == ENDED
  {
    match td
    case Range(e, _, _) =>
      (match ReadWord(s, Width(e))
       case Short(_, next) => Short(InitialValue(td), next)
       case Got(v1, mid) =>
         match ReadWord(mid, Width(e))
         case Short(_, next) => Short(InitialValue(td), next)
         case Got(v2, next) => Got(Ends(v1, v2), next))
    case NoOptions(_) => Fault
    case Str(_, _) => ReadText(s)
    case UriType(_, _, _, _) => ReadText(s)
    case Number(id, _) => ReadOneWord(s, id)
    case Simple(id, _) => ReadOneWord(s, id)
  }

  function ReadText(s: Stream): (r: Read<Value>)
    ensures !r.Fault? ==> |r.next.rest| <= |s.rest|
    ensures r.Short? ==> r.next == ENDED
  {
    match ReadString(s, LONG)
    case Got(v, next) => Got(OneText(v), next)
    case Short(v, next) => Short(OneText(v), next)
    case Fault => Fault
  }

  function ReadOneWord(s: Stream, id: Byte): (r: Read<Value>)
    ensures !r.Fault? && |r.next.rest| <= |s.rest|
    ensures r.Short? ==> r.next == ENDED
  {
    match ReadWord(s, Width(id))
    case Got(v, next) => Got(OneWord(v), next)
    case Short(_, next) => Short(OneWord(0), next)
  }

  // std::string(const char*): up to the first NUL
  function CString(s: Text): (r: Text) {
    if s == [] || s[0] == 0 then [] else [s[0]] + CString(s[1..])
  }

  function PlaceLabel(l: Labelled, code: Text, v: Text): (r: Labelled) {
    if code == ANY then l.(main := Place(l.main, v)) else l.(languages := l.languages[code := v])
  }

  // while (peek > 0): a code of three octets and its text; then the closing zero.
  function LabelLoop(l: Labelled, width: nat, s: Stream): (r: Step<Labelled>)
    ensures r.Next? ==> |r.stream.rest| <= |s.rest|
    decreases |s.rest|
  {
    match Peek(s).0
    case None => Step.Next(l, ENDED)
    case Some(b) =>
      if b == 0 then Step.Next(l, Get(s).1)
      else
        match ReadBytes(s, 3)
        case Short(_, next) => Step.Next(l, next)
        case Got(code, next) =>
          match ReadString(next, width)
          case Fault => Broken
          case Short(_, end) => Step.Next(l, end)
          case Got(v, end) => LabelLoop(PlaceLabel(l, CString(code), v), width, end)
  }

  // One switch of parseOptions.  `groups`: the ids that the manager resolves to groups.
  function OptionTurn(p: Param, groups: set<Id>, tag: Byte, s: Stream): (r: Turn)
    ensures !r.Undefined? ==> |r.stream.rest| <= |s.rest|
  {
    if tag == LABEL then
      match LabelLoop(p.title, TINY, s) {
        case Next(l, next) => Again(p.(title := l), next)
        case Broken => Undefined
      }
    else if tag == DESCRIPTION then
      match LabelLoop(p.description, SHORT, s) {
        case Next(l, next) => Again(p.(description := l), next)
        case Broken => Undefined
      }
    else if tag == TAGS || tag == USERID then
      match ReadString(s, TINY) {
        case Got(v, next) =>
          Again(if tag == TAGS then p.(tags := Place(p.tags, v)) else p.(userid := Place(p.userid, v)), next)
        case Short(_, next) => Again(p, next)
        case Fault => Undefined
      }
    else if tag == ORDER then
      match ReadWord(s, 4) {
        case Got(v, next) => Again(p.(order := Place(p.order, v)), next)
        case Short(_, next) => Again(p, next)
      }
    else if tag == PARENTID then
      match ReadWord(s, 2) {
        case Got(v, next) => SmallPowers(); PlaceParent(p, groups, ToId(v), next)
        case Short(_, next) => Again(p, next)
      }
    else if tag == WIDGET then Again(p, s)
    else if tag == USERDATA then
      match ReadWord(s, 4) {
        case Short(_, _) => Undefined
        case Got(size, mid) =>
          match ReadBytes(mid, size)
          case Got(data, next) => Again(p.(userdata := data), next)
          case Short(data, next) => Again(p.(userdata := data), next)
      }
    else if tag == READONLY then
      match ReadWord(s, 1) {
        case Got(v, next) => Again(p.(readonly := Place(p.readonly, v != 0)), next)
        case Short(_, next) => Again(p, next)
      }
    else if tag == VALUE && IsValueType(p.td) then
      match ReadValue(p.td, s) {
        case Got(v, next) => Again(p.(value := Place(p.value, v)), next)
        case Short(_, next) => Stop(p, next)
        case Fault => Undefined
      }
    else Stop(p, s)
  }

  function PlaceParent(p: Param, groups: set<Id>, parent: Id, s: Stream): (r: Turn)
    ensures !r.Undefined? && r.stream == s
  {
    if parent == ROOT || parent !in groups then Again(p, s)
    else if p.parent.has && p.parent.value == parent then Stop(p, s)
    else Again(p.(parent := Place(p.parent, parent)), s)
  }

  // parseOptions
  function OptionLoop(p: Param, groups: set<Id>, s: Stream): (r: Parsed<Param>)
    ensures r.Done? ==> |r.stream.rest| <= |s.rest|
    decreases |s.rest|
  {
    if s.eof then Done(p, s)
    else
      var (tag, next) := Get(s);
      if tag.None? || tag.value == TERMINATOR then Done(p, next)
      else
        match OptionTurn(p, groups, tag.value, next)
        case Again(p', next') => OptionLoop(p', groups, next')
        case Stop(p', next') => Done(p', next')
        case Undefined => Failed
  }

  // What a factory makes of a datatype octet: a fresh type definition, or nothing.
  function CreateType(id: Byte): (r: Option<TypeDef>) {
    if IsNumber(id) then Some(FreshType(Number(id, FreshNumber(id))))
    else if IsSimple(id) then Some(Simple(id, Fresh(0)))
    else if HasNoOptions(id) then Some(NoOptions(id))
    else if id == STRING then Some(Str(Fresh([]), Fresh([])))
    else if id == URI then Some(UriType(Fresh([]), Fresh([]), [], false))
    else None
  }

  function CreateRange(element: Byte): (r: Option<TypeDef>) {
    if IsNumber(element) then Some(Range(element, FreshNumber(element), Fresh((0, 0)))) else None
  }

  // A parser's result: a parameter, a null pointer, or none that is defined.
  datatype ParamRead = Found(p: Param, stream: Stream) | Nobody(stream: Stream) | Unknown

  // ParameterParser::parse
  function ParseParam(groups: set<Id>, s: Stream): (r: ParamRead)
    ensures !r.Unknown? ==> |r.stream.rest| <= |s.rest|
  {
    match ReadWord(s, 2)
    case Short(_, next) => Nobody(next)
    case Got(id, next) =>
      var (typeId, typeEnd) := Get(next);
      if typeId.None? || typeId.value >= DATATYPE_MAX then Nobody(typeEnd)
      else if typeId.value == ENUM then Unknown
      else
        var (element, elementEnd) := if typeId.value == RANGE then Get(typeEnd) else (None, typeEnd);
        var created :=
          if typeId.value != RANGE then CreateType(typeId.value)
          else if element.Some? then CreateRange(element.value) else None;
        SmallPowers();
        if created.None? then Nobody(elementEnd) else ParseBody(ToId(id), created.value, groups, elementEnd)
  }

  function ParseBody(id: Id, td: TypeDef, groups: set<Id>, s: Stream): (r: ParamRead)
    ensures !r.Unknown? ==> |r.stream.rest| <= |s.rest|
  {
    match ParseType(td, s)
    case Failed => Unknown
    case Done(td', mid) =>
      match OptionLoop(FreshParam(id, td'), groups, mid)
      case Failed => Unknown
      case Done(p, next) => Found(p, next)
  }

  // ParameterParser::parseUpdateValue with ParameterFactory::readValue
  function ParseUpdateValue(s: Stream): (r: ParamRead)
    ensures !r.Unknown? ==> |r.stream.rest| <= |s.rest|
  {
    match ReadWord(s, 2)
    case Short(_, next) => Nobody(next)
    case Got(id, next) =>
      var (typeId, mid) := Get(next);
      SmallPowers();
      if typeId == Some(ENUM) then Unknown
      else if typeId.None? || CreateType(typeId.value).None? || HasNoOptions(typeId.value) then Nobody(mid)
      else
        var p := FreshParam(ToId(id), CreateType(typeId.value).value);
        match ReadValue(p.td, mid)
        case Got(v, end) => Found(p.(value := Assign(p.value, v)), end)
        case Short(v, end) => if v.OneText? then Found(p.(value := Assign(p.value, v)), end) else Unknown
        case Fault => Unknown
  }
}
