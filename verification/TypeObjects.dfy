/** The type definition objects, which options are written from and parsed into in place:
    the TypeDefinition classes of src/rabbitControl/type_number.h, type_range.h, type_default.h,
    type_string.h, type_uri.h and type_noopt.h. */
module TypeObjects {
  import opened Bytes
  import opened Streams
  import opened Options
  import opened TypeDefinitions

  // Five pieces appended one after the other.
  lemma Appended(start: Text, a: Text, b: Text, c: Text, d: Text, e: Text)
    ensures start + a + b + c + d + e == start + (a + (b + (c + (d + e))))
  {
    assert start + a + b == start + (a + b);
    assert start + (a + b) + c == start + (a + b + c);
    assert a + b + c == a + (b + c);
    var abc, de := a + (b + c), d + e;
    assert start + abc + d + e == start + (abc + de);
    assert b + c + de == b + (c + de);
    assert abc + de == a + (b + c + de);
  }

  lemma ThreeAppended(start: Text, a: Text, b: Text, c: Text)
    ensures start + a + b + c == start + (a + (b + c))
  {
    assert start + a + b == start + (a + b);
    assert start + (a + b) + c == start + (a + b + c);
    assert a + b + c == a + (b + c);
  }

  method WriteWord(out: Writer, o: Opt<nat>, all: bool, tag: Byte, width: nat, cleared: nat) returns (o': Opt<nat>)
    modifies out
    ensures out.buffer == old(out.buffer) + WordEmit(o, all, tag, width, cleared) && o' == Flushed(o, all)
  {
    o' := WriteOption(out, o, all, tag, BigEndian(o.value, width), BigEndian(cleared, width));
  }

  method WriteString(out: Writer, o: Opt<Text>, all: bool, tag: Byte, width: nat) returns (o': Opt<Text>)
    requires width == TINY || width == SHORT || width == LONG
    modifies out
    ensures out.buffer == old(out.buffer) + TextEmit(o, all, tag, width) && o' == Flushed(o, all)
  {
    o' := WriteOption(out, o, all, tag, StringBytes(o.value, width), StringBytes([], width));
  }

  class NumberDefinition {
    const id: Byte
    var dflt: Opt<nat>
    var minimum: Opt<nat>
    var maximum: Opt<nat>
    var multipleof: Opt<nat>
    var scale: Opt<Byte>
    var unit: Opt<Text>

    function Options(): (r: NumberOptions)
      reads this
    {
      NumberOptions(dflt, minimum, maximum, multipleof, scale, unit)
    }

    constructor (id: Byte)
      ensures this.id == id && Options() == FreshNumber(id)
    {
      this.id := id;
      dflt, minimum, maximum := Fresh(0), Fresh(LeastWord(id)), Fresh(GreatestWord(id));
      multipleof, scale, unit := Fresh(0), Fresh(0), Fresh([]);
    }

    // setDefault, setMinimum, setMaximum, setMultipleof
    method SetWord(tag: Byte, v: nat)
      requires DEFAULT <= tag <= MULTIPLEOF
      modifies this`dflt, this`minimum, this`maximum, this`multipleof
      ensures if tag == DEFAULT then Stored(old(dflt), v, dflt) else dflt == old(dflt)
      ensures if tag == MINIMUM then Stored(old(minimum), v, minimum) else minimum == old(minimum)
      ensures if tag == MAXIMUM then Stored(old(maximum), v, maximum) else maximum == old(maximum)
      ensures if tag == MULTIPLEOF then Stored(old(multipleof), v, multipleof) else multipleof == old(multipleof)
    {
      if tag == DEFAULT { dflt := Assign(dflt, v); }
      else if tag == MINIMUM { minimum := Assign(minimum, v); }
      else if tag == MAXIMUM { maximum := Assign(maximum, v); }
      else { multipleof := Assign(multipleof, v); }
    }

    // Everything after the mandatory part, with the terminator.
    method Write(out: Writer, all: bool)
      modifies this, out
      ensures out.buffer == old(out.buffer) + NumberBytes(id, old(Options()), all)
      ensures Options() == FlushedNumber(old(Options()), all)
    {
      hide Flushed, Width, LeastWord, GreatestWord;
      ghost var n, start := Options(), out.buffer;
      var w := Width(id);
      Appended(start, WordEmit(n.dflt, all, DEFAULT, w, 0), WordEmit(n.minimum, all, MINIMUM, w, LeastWord(id)),
               WordEmit(n.maximum, all, MAXIMUM, w, GreatestWord(id)), WordEmit(n.multipleof, all, MULTIPLEOF, w, 0),
               ScaleAndUnitBytes(n, all));
      dflt := WriteWord(out, dflt, all, DEFAULT, w, 0);
      minimum := WriteWord(out, minimum, all, MINIMUM, w, LeastWord(id));
      maximum := WriteWord(out, maximum, all, MAXIMUM, w, GreatestWord(id));
      multipleof := WriteWord(out, multipleof, all, MULTIPLEOF, w, 0);
      WriteScaleAndUnit(out, all);
    }

    method WriteScaleAndUnit(out: Writer, all: bool)
      modifies this`scale, this`unit, out
      ensures out.buffer == old(out.buffer) + ScaleAndUnitBytes(old(Options()), all)
      ensures scale == Flushed(old(scale), all) && unit == Flushed(old(unit), all)
    {
      hide Emit, TextEmit, Flushed;
      ThreeAppended(out.buffer, Emit(scale, all, SCALE, [scale.value], [0]), TextEmit(unit, all, UNIT, TINY),
          [TERMINATOR]);
      scale := WriteOption(out, scale, all, SCALE, [scale.value], [0]);
      unit := WriteString(out, unit, all, UNIT, TINY);
      out.Write(TERMINATOR);
    }

    // One switch of the parse loop.
    method ReadOption(input: InputStream, tag: Byte) returns (ok: bool)
      modifies this, input
      ensures ok ==> NumberOption(id, old(Options()), tag, old(input.view)) == Next(Options(), input.view)
      ensures !ok ==> NumberOption(id, old(Options()), tag, old(input.view)).Broken?
    {
      ok := true;
      if tag == SCALE {
        var b := input.Next();
        if b.Some? { scale := Place(scale, b.value); }
      } else if tag == UNIT {
        var s := input.String(TINY);
        if s.Fault? { return false; }
        if s.Got? { unit := Place(unit, s.value); }
      } else if DEFAULT <= tag <= MULTIPLEOF {
        var v := input.Word(Width(id));
        if v.Got? { PutWord(tag, v.value); }
      }
    }

    method PutWord(tag: Byte, v: nat)
      requires DEFAULT <= tag <= MULTIPLEOF
      modifies this
      ensures Options() == PlaceWord(old(Options()), tag, v)
    {
      if tag == DEFAULT { dflt := Place(dflt, v); }
      else if tag == MINIMUM { minimum := Place(minimum, v); }
      else if tag == MAXIMUM { maximum := Place(maximum, v); }
      else { multipleof := Place(multipleof, v); }
    }

    method ParseOptions(input: InputStream) returns (ok: bool)
      modifies this, input
      ensures ok ==> TypeLoop(Number(id, old(Options())), old(input.view)) == Done(Number(id, Options()), input.view)
      ensures !ok ==> TypeLoop(Number(id, old(Options())), old(input.view)).Failed?
    {
      ghost var whole := TypeLoop(Number(id, Options()), input.view);
      while !input.view.eof
        invariant TypeLoop(Number(id, Options()), input.view) == whole
        decreases |input.view.rest|
      {
        var tag := input.Next();
        if tag.None? || tag.value == TERMINATOR { return true; }
        ok := ReadOption(input, tag.value);
        if !ok { return; }
      }
      ok := true;
    }
  }

  class RangeDefinition {
    const element: NumberDefinition
    var dflt: Opt<(nat, nat)>

    function Def(): (r: TypeDef)
      reads this, element
    {
      TypeDef.Range(element.id, element.Options(), dflt)
    }

    constructor (id: Byte)
      ensures fresh(element) && element.id == id && Def() == TypeDef.Range(id, FreshNumber(id), Fresh((0, 0)))
    {
      element := new NumberDefinition(id);
      dflt := Fresh((0, 0));
    }

    method SetDefault(v: (nat, nat))
      modifies this
      ensures Def() == TypeDef.Range(element.id, element.Options(), Assign(old(dflt), v))
    {
      dflt := Assign(dflt, v);
    }

    // The element's options and terminator, then the range's own.
    method Write(out: Writer, all: bool)
      modifies this, element, out
      ensures out.buffer == old(out.buffer) + TypeBytes(old(Def()), all)
      ensures Def() == FlushedType(old(Def()), all)
    {
      hide NumberBytes, Emit, PairBytes, Width, Flushed, FlushedNumber;
      ghost var n := element.Options();
      var e, w := element.id, Width(element.id);
      var c := if element.dflt.has then element.dflt.value else 0;
      ThreeAppended(out.buffer, NumberBytes(e, n, all),
          Emit(dflt, all, DEFAULT, PairBytes(dflt.value, w), PairBytes((c, c), w)), [TERMINATOR]);
      element.Write(out, all);
      dflt := WriteOption(out, dflt, all, DEFAULT, PairBytes(dflt.value, w), PairBytes((c, c), w));
      out.Write(TERMINATOR);
    }

    method ReadOption(input: InputStream, tag: Byte)
      modifies this, input
      ensures TypeOption(old(Def()), tag, old(input.view)) == Next(Def(), input.view)
    {
      if tag == DEFAULT {
        var v1 := input.Word(Width(element.id));
        if v1.Got? {
          var v2 := input.Word(Width(element.id));
          if v2.Got? { dflt := Place(dflt, (v1.value, v2.value)); }
        }
      }
    }

    method ParseOptions(input: InputStream) returns (ok: bool)
      modifies this, element, input
      ensures ok ==> ParseType(old(Def()), old(input.view)) == Done(Def(), input.view)
      ensures !ok ==> ParseType(old(Def()), old(input.view)).Failed?
    {
      ghost var start, view := Def(), input.view;
      ok := element.ParseOptions(input);
      if !ok { return; }
      assert ParseType(start, view) == TypeLoop(Def(), input.view);
      while !input.view.eof
        invariant TypeLoop(Def(), input.view) == ParseType(start, view)
        decreases |input.view.rest|
      {
        var tag := input.Next();
        if tag.None? || tag.value == TERMINATOR { return; }
        ReadOption(input, tag.value);
      }
    }
  }

  // Booleans, colours and addresses.
  class SimpleDefinition {
    const id: Byte
    var dflt: Opt<nat>

    function Def(): (r: TypeDef)
      reads this
    {
      Simple(id, dflt)
    }

    constructor (id: Byte)
      ensures Def() == Simple(id, Fresh(0))
    {
      this.id := id;
      dflt := Fresh(0);
    }

    method SetDefault(v: nat)
      modifies this
      ensures Def() == Simple(id, Assign(old(dflt), v))
    {
      dflt := Assign(dflt, v);
    }

    method Write(out: Writer, all: bool)
      modifies this, out
      ensures out.buffer == old(out.buffer) + TypeBytes(old(Def()), all)
      ensures Def() == FlushedType(old(Def()), all)
    {
      ghost var start, a := out.buffer, WordEmit(dflt, all, DEFAULT, Width(id), 0);
      dflt := WriteWord(out, dflt, all, DEFAULT, Width(id), 0);
      out.Write(TERMINATOR);
      assert start + a + [TERMINATOR] == start + (a + [TERMINATOR]);
    }

    method ParseOptions(input: InputStream)
      modifies this, input
      ensures ParseType(old(Def()), old(input.view)) == Done(Def(), input.view)
    {
      ghost var whole := TypeLoop(Def(), input.view);
      while !input.view.eof
        invariant TypeLoop(Def(), input.view) == whole
        decreases |input.view.rest|
      {
        var tag := input.Next();
        if tag.None? || tag.value == TERMINATOR { return; }
        if tag.value == DEFAULT {
          var v := input.Word(Width(id));
          if v.Got? { dflt := Place(dflt, v.value); }
        }
      }
    }
  }

  class StringDefinition {
    var dflt: Opt<Text>
    var regex: Opt<Text>

    function Def(): (r: TypeDef)
      reads this
    {
      Str(dflt, regex)
    }

    constructor ()
      ensures Def() == Str(Fresh([]), Fresh([]))
    {
      dflt, regex := Fresh([]), Fresh([]);
    }

    method Write(out: Writer, all: bool)
      modifies this, out
      ensures out.buffer == old(out.buffer) + TypeBytes(old(Def()), all)
      ensures Def() == FlushedType(old(Def()), all)
    {
      hide TextEmit, Flushed;
      ThreeAppended(out.buffer, TextEmit(dflt, all, DEFAULT, LONG), TextEmit(regex, all, REGEX, LONG), [TERMINATOR]);
      dflt := WriteString(out, dflt, all, DEFAULT, LONG);
      regex := WriteString(out, regex, all, REGEX, LONG);
      out.Write(TERMINATOR);
    }

    method ParseOptions(input: InputStream) returns (ok: bool)
      modifies this, input
      ensures ok ==> ParseType(old(Def()), old(input.view)) == Done(Def(), input.view)
      ensures !ok ==> ParseType(old(Def()), old(input.view)).Failed?
    {
      ghost var whole := TypeLoop(Def(), input.view);
      while !input.view.eof
        invariant TypeLoop(Def(), input.view) == whole
        decreases |input.view.rest|
      {
        var tag := input.Next();
        if tag.None? || tag.value == TERMINATOR { return true; }
        if tag.value == DEFAULT || tag.value == REGEX {
          var s := input.String(LONG);
          if s.Fault? { return false; }
          if s.Got? {
            if tag.value == DEFAULT { dflt := Place(dflt, s.value); } else { regex := Place(regex, s.value); }
          }
        }
      }
      ok := true;
    }
  }

  class UriDefinition {
    var dflt: Opt<Text>
    var filter: Opt<Text>
    var schemas: seq<Text>
    var schemaChanged: bool

    function Def(): (r: TypeDef)
      reads this
    {
      UriType(dflt, filter, schemas, schemaChanged)
    }

    constructor ()
      ensures Def() == UriType(Fresh([]), Fresh([]), [], false)
    {
      dflt, filter, schemas, schemaChanged := Fresh([]), Fresh([]), [], false;
    }

    // The next flush sends the whole list, and that is read back as the list exactly if every
    // schema is a token.
    method AddSchema(schema: Text)
      modifies this
      ensures schemas != [] && SchemaEmit(schemas, schemaChanged, false) == [SCHEMA] + StringBytes(Join(schemas), TINY)
      ensures Split(Join(schemas), []) == old(schemas) + [schema] <==>
               Token(schema) && forall i :: 0 <= i < |old(schemas)| ==> Token(old(schemas)[i])
      ensures Def() == UriType(old(dflt), old(filter), old(schemas) + [schema], true)
    {
      hide Split, Join, Token;
      ghost var before := schemas;
      schemas := schemas + [schema];
      schemaChanged := true;
      SchemasRoundTripIff(schemas);
      assert schemas[|before|] == schema && forall i :: 0 <= i < |before| ==> schemas[i] == before[i];
    }

    method WriteSchemas(out: Writer, all: bool)
      modifies this`schemaChanged, out
      ensures out.buffer == old(out.buffer) + SchemaEmit(schemas, old(schemaChanged), all)
      ensures schemaChanged == (old(schemaChanged) && schemas != [] && all)
    {
      ghost var start, c := out.buffer, schemaChanged;
      if schemas != [] {
        if all || schemaChanged {
          var text := JoinSchemas(schemas);
          out.Write(SCHEMA);
          out.WriteString(text, TINY);
          if !all { schemaChanged := false; }
        }
      } else if schemaChanged {
        out.Write(SCHEMA);
        out.WriteString([], TINY);
        schemaChanged := false;
      }
      assert out.buffer == start + SchemaEmit(schemas, c, all);
    }

    method Write(out: Writer, all: bool)
      modifies this, out
      ensures out.buffer == old(out.buffer) + TypeBytes(old(Def()), all)
      ensures Def() == FlushedType(old(Def()), all)
    {
      hide TextEmit, SchemaEmit, Flushed;
      Appended(out.buffer, TextEmit(dflt, all, DEFAULT, LONG), TextEmit(filter, all, FILTER, TINY),
               SchemaEmit(schemas, schemaChanged, all), [TERMINATOR], []);
      NothingAfter(out.buffer + TextEmit(dflt, all, DEFAULT, LONG) + TextEmit(filter, all, FILTER, TINY)
                   + SchemaEmit(schemas, schemaChanged, all) + [TERMINATOR]);
      NothingAfter([TERMINATOR]);
      dflt := WriteString(out, dflt, all, DEFAULT, LONG);
      filter := WriteString(out, filter, all, FILTER, TINY);
      WriteSchemas(out, all);
      out.Write(TERMINATOR);
    }

    method ReadOption(input: InputStream, tag: Byte) returns (ok: bool)
      modifies this, input
      ensures ok ==> TypeOption(old(Def()), tag, old(input.view)) == Next(Def(), input.view)
      ensures !ok ==> TypeOption(old(Def()), tag, old(input.view)).Broken?
    {
      ok := true;
      if tag == DEFAULT || tag == FILTER || tag == SCHEMA {
        var s := input.String(if tag == DEFAULT then LONG else TINY);
        if s.Fault? { return false; }
        if s.Got? {
          if tag == DEFAULT { dflt := Place(dflt, s.value); }
          else if tag == FILTER { filter := Place(filter, s.value); }
          else { schemas := Split(s.value, []); }
        }
      }
    }

    method ParseOptions(input: InputStream) returns (ok: bool)
      modifies this, input
      ensures ok ==> ParseType(old(Def()), old(input.view)) == Done(Def(), input.view)
      ensures !ok ==> ParseType(old(Def()), old(input.view)).Failed?
    {
      ghost var whole := TypeLoop(Def(), input.view);
      while !input.view.eof
        invariant TypeLoop(Def(), input.view) == whole
        decreases |input.view.rest|
      {
        var tag := input.Next();
        if tag.None? || tag.value == TERMINATOR { return true; }
        ok := ReadOption(input, tag.value);
        if !ok { return; }
      }
      ok := true;
    }
  }

  // the schemas, a blank after each but the last
  method JoinSchemas(ss: seq<Text>) returns (text: Text)
    requires ss != []
    ensures text == Join(ss)
  {
    text := ss[0];
    var i := 1;
    JoinPrefix(ss, 1);
    while i < |ss|
      invariant 1 <= i <= |ss| && text == Join(ss[..i])
    {
      JoinPrefix(ss, i + 1);
      text := text + [32] + ss[i];
      i := i + 1;
    }
    assert ss[..i] == ss;
  }

  lemma NothingAfter(t: Text)
    ensures t + [] == t
  {
  }

  // Joining one schema more appends a blank and the schema.
  lemma {:induction false} JoinPrefix(ss: seq<Text>, n: nat)
    requires 1 <= n <= |ss|
    ensures n == 1 ==> Join(ss[..n]) == ss[0]
    ensures n > 1 ==> Join(ss[..n]) == Join(ss[..n - 1]) + [32] + ss[n - 1]
  {
    if n > 1 {
      JoinPrefix(ss[1..], n - 1);
      assert ss[..n][1..] == ss[1..][..n - 1];
      if n > 2 {
        assert ss[..n - 1][1..] == ss[1..][..n - 2];
        var tail := Join(ss[1..][..n - 2]);
        assert ss[0] + ([32] + (tail + [32] + ss[n - 1])) == ss[0] + ([32] + tail) + [32] + ss[n - 1];
      }
    }
  }

  // ---------------------------------------------------------------- any of them

  datatype Definition =
    | OfNumber(number: NumberDefinition)
    | OfRange(range: RangeDefinition)
    | OfSimple(simple: SimpleDefinition)
    | OfString(text: StringDefinition)
    | OfUri(uri: UriDefinition)
    | OfNoOptions(id: Byte)

  function Objects(d: Definition): (r: set<object>) {
    match d
    case OfNumber(o) => {o}
    case OfRange(o) => {o, o.element}
    case OfSimple(o) => {o}
    case OfString(o) => {o}
    case OfUri(o) => {o}
    case OfNoOptions(_) => {}
  }

  function DefOf(d: Definition): (r: TypeDef)
    reads Objects(d)
  {
    match d
    case OfNumber(o) => Number(o.id, o.Options())
    case OfRange(o) => o.Def()
    case OfSimple(o) => o.Def()
    case OfString(o) => o.Def()
    case OfUri(o) => o.Def()
    case OfNoOptions(id) => NoOptions(id)
  }

  method WriteDefinition(d: Definition, out: Writer, all: bool)
    modifies Objects(d), out
    ensures out.buffer == old(out.buffer) + TypeBytes(old(DefOf(d)), all)
    ensures DefOf(d) == FlushedType(old(DefOf(d)), all)
  {
    match d
    case OfNumber(o) => o.Write(out, all);
    case OfRange(o) => o.Write(out, all);
    case OfSimple(o) => o.Write(out, all);
    case OfString(o) => o.Write(out, all);
    case OfUri(o) => o.Write(out, all);
    case OfNoOptions(_) => out.Write(TERMINATOR);
  }

  method ParseDefinition(d: Definition, input: InputStream) returns (ok: bool)
    modifies Objects(d), input
    ensures ok ==> ParseType(old(DefOf(d)), old(input.view)) == Done(DefOf(d), input.view)
    ensures !ok ==> ParseType(old(DefOf(d)), old(input.view)).Failed?
  {
    ok := true;
    match d
    case OfNumber(o) => ok := o.ParseOptions(input);
    case OfRange(o) => ok := o.ParseOptions(input);
    case OfSimple(o) => o.ParseOptions(input);
    case OfString(o) => ok := o.ParseOptions(input);
    case OfUri(o) => ok := o.ParseOptions(input);
    case OfNoOptions(_) => var terminator := input.Next();
  }
}
