/** The parameter objects: the setters, write, parseOptions and update of Parameter and
    ValueParameter in src/rabbitControl/parameter_intern.h, the factories of
    parameterfactory.cpp and the parsers of parameter_parser.h, on fields changed in place. */
module ParameterObjects {
  import opened Bytes
  import opened Streams
  import opened Options
  import opened TypeDefinitions
  import opened TypeObjects
  import opened Forest
  import opened Parameters
  import opened ParameterDelta
  import ParameterCodec

  // ---------------------------------------------------------------- labels

  // a code cut to three octets and its text; a shorter code is skipped
  method WriteLanguage(out: Writer, k: Text, v: Text, width: nat)
    requires width == TINY || width == SHORT
    modifies out
    ensures out.buffer == old(out.buffer) + LanguageEntry(k, v, width)
  {
    hide StringBytes;
    ghost var start := out.buffer;
    if |k| < 3 {
      NothingAfter(start);
      return;
    }
    out.WriteText(k[..3]);
    out.WriteString(v, width);
    assert out.buffer == start + (k[..3] + StringBytes(v, width));
  }

  // the loop over std::map<std::string, std::string>
  method WriteLanguages(out: Writer, m: map<Text, Text>, width: nat)
    requires width == TINY || width == SHORT
    modifies out
    ensures out.buffer == old(out.buffer) + LanguageBytes(m, width)
  {
    hide LanguageBytes, LanguageEntry, FirstKey;
    ghost var whole := out.buffer + LanguageBytes(m, width);
    var pending := m;
    while pending.Keys != {}
      invariant out.buffer + LanguageBytes(pending, width) == whole
      decreases pending.Keys
    {
      var k := FirstKey(pending.Keys);
      FirstLanguage(out.buffer, pending, width);
      WriteLanguage(out, k, pending[k], width);
      pending := pending - {k};
    }
    NoLanguages(pending, width);
    NothingAfter(out.buffer);
  }

  lemma FirstLanguage(start: Text, m: map<Text, Text>, width: nat)
    requires (width == TINY || width == SHORT) && m.Keys != {}
    ensures var k := FirstKey(m.Keys);
      && k in m && (m - {k}).Keys < m.Keys
      && start + LanguageBytes(m, width) == start + LanguageEntry(k, m[k], width) + LanguageBytes(m - {k}, width)
  {
    var k := FirstKey(m.Keys);
    assert k in m.Keys && LanguageBytes(m, width) == LanguageEntry(k, m[k], width) + LanguageBytes(m - {k}, width);
    OneKeyLess(m, k);
    InARow(start, LanguageEntry(k, m[k], width), LanguageBytes(m - {k}, width));
  }

  lemma OneKeyLess(m: map<Text, Text>, k: Text)
    requires k in m
    ensures (m - {k}).Keys < m.Keys
  {
    assert k !in (m - {k}).Keys;
  }

  lemma InARow(a: Text, b: Text, c: Text)
    ensures a + (b + c) == a + b + c
  {
  }

  lemma NoLanguages(m: map<Text, Text>, width: nat)
    requires (width == TINY || width == SHORT) && m.Keys == {}
    ensures LanguageBytes(m, width) == []
  {
  }

  // writeLabel, writeDescription, with the decision whether to write at all
  method WriteLabelled(out: Writer, l: Labelled, all: bool, tag: Byte, width: nat) returns (l': Labelled)
    requires width == TINY || width == SHORT
    modifies out
    ensures out.buffer == old(out.buffer) + LabelEmit(l, all, tag, width) && l' == FlushedLabel(l, all)
  {
    l' := l;
    ghost var start := out.buffer;
    if HasLabel(l) {
      if all || l.main.changed {
        out.Write(tag);
        WriteTexts(out, l, width);
        assert out.buffer == start + ([tag] + LabelBytes(l, width));
        if !all {
          l' := l.(main := l.main.(changed := false));
        }
      } else {
        NothingAfter(start);
      }
    } else if l.main.changed {
      out.Write(tag);
      out.Write(TERMINATOR);
      assert out.buffer == start + ([tag] + [TERMINATOR]);
      l' := l.(main := l.main.(changed := false));
    } else {
      NothingAfter(start);
    }
  }

  method WriteTexts(out: Writer, l: Labelled, width: nat)
    requires width == TINY || width == SHORT
    modifies out
    ensures out.buffer == old(out.buffer) + LabelBytes(l, width)
  {
    hide LanguageBytes, StringBytes;
    ghost var start := out.buffer;
    ghost var any := if l.main.has then ANY + StringBytes(l.main.value, width) else [];
    ThreeAppended(start, any, LanguageBytes(l.languages, width), [TERMINATOR]);
    if l.main.has {
      out.WriteText(ANY);
      out.WriteString(l.main.value, width);
      assert out.buffer == start + any;
    } else {
      NothingAfter(start);
    }
    WriteLanguages(out, l.languages, width);
    out.Write(TERMINATOR);
  }

  // the first NUL ends the string
  method FromCString(code: Text) returns (r: Text)
    ensures r == CString(code)
  {
    var n := 0;
    while n < |code| && code[n] != 0
      invariant 0 <= n <= |code| && CString(code) == code[..n] + CString(code[n..])
    {
      assert code[n..][1..] == code[n + 1..] && code[..n] + [code[n]] == code[..n + 1];
      assert code[..n] + ([code[n]] + CString(code[n + 1..])) == code[..n] + [code[n]] + CString(code[n + 1..]);
      n := n + 1;
    }
    r := code[..n];
    NothingAfter(r);
  }

  // while (peek > 0)
  method ReadLabelled(input: InputStream, l: Labelled, width: nat) returns (ok: bool, l': Labelled)
    modifies input
    ensures ok ==> LabelLoop(l, width, old(input.view)) == Step.Next(l', input.view)
    ensures !ok ==> LabelLoop(l, width, old(input.view)).Broken?
  {
    ok, l' := true, l;
    ghost var whole := LabelLoop(l, width, input.view);
    var peek := input.PeekNext();
    while peek.Some? && peek.value > 0
      invariant input.view.rest != [] ==> peek == Some(input.view.rest[0]) && LabelLoop(l', width, input.view) == whole
      invariant input.view.rest == [] ==> peek.None? && input.view == ENDED && whole == Step.Next(l', ENDED)
      decreases |input.view.rest|
    {
      var code := input.Raw(3);
      if code.Short? { return; }
      var language := FromCString(code.value);
      var text := input.String(width);
      if text.Fault? { return false, l'; }
      if text.Short? { return; }
      l' := PlaceLabel(l', language, text.value);
      peek := input.PeekNext();
    }
    if peek.Some? {
      var zero := input.Next();
    }
  }

  // ---------------------------------------------------------------- the parameter

  class Parameter {
    const id: Id
    const definition: Definition
    var value: Opt<Value>
    var title: Labelled
    var description: Labelled
    var tags: Opt<Text>
    var order: Opt<nat>
    var parent: Opt<Id>
    var userdata: Text
    var userdataChanged: bool
    var userid: Opt<Text>
    var readonly: Opt<bool>

    function View(): (r: Param)
      reads this, Objects(definition)
    {
      Param(id, DefOf(definition), value, title, description, tags, order, parent, userdata, userdataChanged, userid,
          readonly)
    }

    constructor (id: Id, definition: Definition)
      ensures this.id == id && this.definition == definition && View() == FreshParam(id, DefOf(definition))
    {
      this.id, this.definition := id, definition;
      value := Fresh(InitialValue(DefOf(definition)));
      title, description := Labelled(Fresh([]), map[]), Labelled(Fresh([]), map[]);
      tags, order, parent, userid, readonly := Fresh([]), Fresh(0), Fresh(ROOT), Fresh([]), Fresh(false);
      userdata, userdataChanged := [], false;
    }

    // The setters.  `dirty`: whether setDirty() is called.

    method SetValue(v: Value) returns (dirty: bool)
      modifies this`value
      ensures Stored(old(value), v, value) && (dirty <==> old(value).value != v)
    {
      value := value.(has := true);
      if value.value == v {
        return false;
      }
      value := Opt(true, v, true);
      dirty := true;
    }

    method SetLabel(v: Text) returns (dirty: bool)
      modifies this`title
      ensures Stored(old(title).main, v, title.main) && (dirty <==> old(title).main.value != v)
      ensures title.languages == old(title).languages
    {
      title := title.(main := title.main.(has := true));
      if title.main.value == v {
        return false;
      }
      title := title.(main := Opt(true, v, true));
      dirty := true;
    }

    // The next flush brings a reader the texts of all languages, even if this one was the same.
    method SetLanguageLabel(code: Text, v: Text) returns (dirty: bool)
      modifies this`title
      ensures ParameterCodec.ReceivedLabel(title, false).languages == old(title).languages[code := v]
      ensures title == Labelled(old(title).main.(changed := true), old(title).languages[code := v]) && dirty
    {
      title := Labelled(title.main.(changed := true), title.languages[code := v]);
      dirty := true;
    }

    method SetDescription(v: Text) returns (dirty: bool)
      modifies this`description
      ensures Stored(old(description).main, v, description.main) && (dirty <==> old(description).main.value != v)
      ensures description.languages == old(description).languages
    {
      description := description.(main := description.main.(has := true));
      if description.main.value == v {
        return false;
      }
      description := description.(main := Opt(true, v, true));
      dirty := true;
    }

    method SetTags(v: Text) returns (dirty: bool)
      modifies this`tags
      ensures Stored(old(tags), v, tags) && (dirty <==> old(tags).value != v)
    {
      tags := tags.(has := true);
      if tags.value == v {
        return false;
      }
      tags := Opt(true, v, true);
      dirty := true;
    }

    method SetOrder(v: nat) returns (dirty: bool)
      modifies this`order
      ensures Stored(old(order), v, order) && (dirty <==> old(order).value != v)
    {
      order := order.(has := true);
      if order.value == v {
        return false;
      }
      order := Opt(true, v, true);
      dirty := true;
    }

    method SetUserdata(v: Text)
      modifies this`userdata, this`userdataChanged
      ensures userdata == v && userdataChanged
    {
      userdata, userdataChanged := v, true;
    }

    method SetUserid(v: Text) returns (dirty: bool)
      modifies this`userid
      ensures Stored(old(userid), v, userid) && (dirty <==> old(userid).value != v)
    {
      userid := userid.(has := true);
      if userid.value == v {
        return false;
      }
      userid := Opt(true, v, true);
      dirty := true;
    }

    method SetReadonly(v: bool) returns (dirty: bool)
      modifies this`readonly
      ensures Stored(old(readonly), v, readonly) && (dirty <==> old(readonly).value != v)
    {
      readonly := readonly.(has := true);
      if readonly.value == v {
        return false;
      }
      readonly := Opt(true, v, true);
      dirty := true;
    }

    // setParent, as far as the parameter itself goes
    method SetParent(group: Id) returns (dirty: bool)
      modifies this`parent
      ensures old(parent).has && old(parent).value == group ==> parent == old(parent) && !dirty
      ensures !(old(parent).has && old(parent).value == group) ==> parent == Opt(true, group, true) && dirty
    {
      if parent.has && parent.value == group {
        return false;
      }
      parent := Opt(true, group, true);
      dirty := true;
    }

    method WriteValue(out: Writer, all: bool)
      modifies this`value, out
      ensures out.buffer == old(out.buffer) + ValueEmit(old(DefOf(definition)), old(value), all)
      ensures value == if IsValueType(old(DefOf(definition))) then Flushed(old(value), all) else old(value)
    {
      var td := DefOf(definition);
      if IsValueType(td) {
        value := WriteOption(out, value, all, VALUE, ValueBytes(td, value.value), ValueBytes(td, value.value));
      } else {
        NothingAfter(out.buffer);
      }
    }

    // Value::write and Parameter::Value::write
    method WriteEarlyOptions(out: Writer, all: bool)
      modifies this`value, this`title, this`description, this`tags, this`order, out
      ensures out.buffer == old(out.buffer) + ValueEmit(old(DefOf(definition)), old(value), all)
        + LabelEmit(old(title), all, LABEL, TINY) + LabelEmit(old(description), all, DESCRIPTION, SHORT)
        + TextEmit(old(tags), all, TAGS, TINY) + WordEmit(old(order), all, ORDER, 4, 0)
      ensures value == if IsValueType(old(DefOf(definition))) then Flushed(old(value), all) else old(value)
      ensures title == FlushedLabel(old(title), all) && description == FlushedLabel(old(description), all)
      ensures tags == Flushed(old(tags), all) && order == Flushed(old(order), all)
    {
      hide ValueEmit, LabelEmit, TextEmit, WordEmit, Flushed, FlushedLabel;
      WriteValue(out, all);
      title := WriteLabelled(out, title, all, LABEL, TINY);
      description := WriteLabelled(out, description, all, DESCRIPTION, SHORT);
      tags := WriteString(out, tags, all, TAGS, TINY);
      order := WriteWord(out, order, all, ORDER, 4, 0);
    }

    method WriteLateOptions(out: Writer, all: bool)
      modifies this`parent, this`userdataChanged, this`userid, this`readonly, out
      ensures out.buffer == old(out.buffer) + LateOptionBytes(old(View()), all)
      ensures parent == Flushed(old(parent), all) && userid == Flushed(old(userid), all)
               && readonly == Flushed(old(readonly), all)
      ensures userdataChanged == (old(userdataChanged) && userdata != [] && all)
    {
      hide Emit, UserdataEmit, TextEmit, Flushed, IdBytes, DefOf;
      Appended(out.buffer, Emit(parent, all, PARENTID, IdBytes(parent.value), IdBytes(ROOT)),
          UserdataEmit(userdata, userdataChanged, all),
               TextEmit(userid, all, USERID, TINY), Emit(readonly, all, READONLY, [Bool(readonly.value)], [0]),
                   [TERMINATOR]);
      parent := WriteOption(out, parent, all, PARENTID, IdBytes(parent.value), IdBytes(ROOT));
      WriteUserdata(out, all);
      userid := WriteString(out, userid, all, USERID, TINY);
      readonly := WriteOption(out, readonly, all, READONLY, [Bool(readonly.value)], [0]);
      out.Write(TERMINATOR);
    }

    method WriteUserdata(out: Writer, all: bool)
      modifies this`userdataChanged, out
      ensures out.buffer == old(out.buffer) + UserdataEmit(userdata, old(userdataChanged), all)
      ensures userdataChanged == (old(userdataChanged) && userdata != [] && all)
    {
      ghost var start, changed := out.buffer, userdataChanged;
      if userdata != [] {
        if all || userdataChanged {
          out.Write(USERDATA);
          out.WriteText(userdata);
          if !all { userdataChanged := false; }
        }
      } else if userdataChanged {
        out.Write(USERDATA);
        out.WriteWord(0, 4);
        userdataChanged := false;
      }
      assert out.buffer == start + UserdataEmit(userdata, changed, all);
    }

    method WriteShort(out: Writer)
      modifies this`value, out
      ensures out.buffer == old(out.buffer) + ShortBytes(old(View()))
      ensures value == old(value).(changed := false)
    {
      hide Mandatory, ValueBytes, BigEndian, DefOf;
      var td := DefOf(definition);
      ThreeAppended(out.buffer, IdBytes(id), Mandatory(td), ValueBytes(td, value.value));
      out.WriteWord(Unsigned(id), 2);
      out.WriteText(Mandatory(td));
      out.WriteText(ValueBytes(td, value.value));
      value := value.(changed := false);
    }

    method WriteOptions(out: Writer, all: bool)
      modifies this, out
      ensures out.buffer == old(out.buffer) + OptionBytes(old(View()), all)
      ensures View() == FlushedOptions(old(View()), all)
    {
      hide ValueEmit, LateOptionBytes, Flushed, FlushedLabel;
      ghost var p := View();
      SixAppended(out.buffer, ValueEmit(p.td, p.value, all), LabelEmit(p.title, all, LABEL, TINY),
                  LabelEmit(p.description, all, DESCRIPTION, SHORT), TextEmit(p.tags, all, TAGS, TINY),
                  WordEmit(p.order, all, ORDER, 4, 0), LateOptionBytes(p, all));
      WriteEarlyOptions(out, all);
      LateAlone(p, View(), all);
      WriteLateOptions(out, all);
    }

    // the id and the type definition
    method WriteHead(out: Writer, all: bool)
      modifies Objects(definition), out
      ensures out.buffer == old(out.buffer) + IdBytes(id) + Mandatory(old(DefOf(definition)))
               + TypeBytes(old(DefOf(definition)), all)
      ensures View() == old(View()).(td := FlushedType(old(DefOf(definition)), all))
    {
      hide TypeBytes, Mandatory, BigEndian, DefOf, FlushedType;
      out.WriteWord(Unsigned(id), 2);
      out.WriteText(Mandatory(DefOf(definition)));
      WriteDefinition(definition, out, all);
    }

    method WriteLong(out: Writer, all: bool)
      modifies this, Objects(definition), out
      ensures out.buffer == old(out.buffer) + LongBytes(old(View()), all)
      ensures View() == FlushedOptions(old(View()), all).(td := FlushedType(old(View()).td, all))
    {
      hide TypeBytes, OptionBytes, Mandatory, IdBytes, DefOf, FlushedType, FlushedOptions;
      ghost var p := View();
      FourAppended(out.buffer, IdBytes(p.id), Mandatory(p.td), TypeBytes(p.td, all), OptionBytes(p, all));
      OptionPartStays(p, all);
      WriteHead(out, all);
      WriteOptions(out, all);
    }

    // write: the short form when only the value changed
    method Write(out: Writer, all: bool)
      modifies this, Objects(definition), out
      ensures out.buffer == old(out.buffer) + ParamBytes(old(View()), all)
      ensures View() == FlushedParam(old(View()), all)
    {
      hide ShortBytes, LongBytes, OnlyValueChanged, FlushedOptions, FlushedType, DefOf;
      if OnlyValueChanged(View()) {
        WriteShort(out);
      } else {
        WriteLong(out, all);
      }
    }

    // readValue
    method ReadOneValue(input: InputStream) returns (r: Read<Value>)
      modifies input
      ensures r == ReadValue(DefOf(definition), old(input.view)) && (!r.Fault? ==> input.view == r.next)
    {
      match definition
      case OfRange(o) =>
        var v1 := input.Word(Width(o.element.id));
        if v1.Short? { return Short(Ends(0, 0), input.view); }
        var v2 := input.Word(Width(o.element.id));
        if v2.Short? { return Short(Ends(0, 0), input.view); }
        r := Got(Ends(v1.value, v2.value), input.view);
      case OfNumber(o) =>
        var v := input.Word(Width(o.id));
        r := if v.Got? then Got(OneWord(v.value), v.next) else Short(OneWord(0), v.next);
      case OfSimple(o) =>
        var v := input.Word(Width(o.id));
        r := if v.Got? then Got(OneWord(v.value), v.next) else Short(OneWord(0), v.next);
      case OfNoOptions(_) =>
        r := Fault;
      case _ =>
        var v := input.String(LONG);
        match v
        case Got(text, next) => r := Got(OneText(text), next);
        case Short(text, next) => r := Short(OneText(text), next);
        case Fault => r := Fault;
    }

    method ReadParent(input: InputStream, groups: set<Id>) returns (outcome: Outcome)
      modifies this`parent, input
      ensures IsOutcome(OptionTurn(old(View()), groups, PARENTID, old(input.view)), outcome, View(), input.view)
    {
      hide FromBigEndian, LabelLoop, ReadString, ReadBytes, ReadValue;
      SmallPowers();
      var v := input.Word(2);
      if v.Short? { return GoesOn; }
      var parentId := ToId(v.value);
      if parentId != ROOT && parentId in groups {
        if parent.has && parent.value == parentId { return Returns; }
        parent := Place(parent, parentId);
      }
      outcome := GoesOn;
    }

    method ReadUserdata(input: InputStream, ghost groups: set<Id>) returns (outcome: Outcome)
      modifies this`userdata, input
      ensures IsOutcome(OptionTurn(old(View()), groups, USERDATA, old(input.view)), outcome, View(), input.view)
    {
      hide ReadWord, LabelLoop, ReadString, ReadValue;
      var size := input.Word(4);
      if size.Short? { return IsUndefined; }
      var data := input.Raw(size.value);
      userdata := if data.Got? then data.value else data.padded;
      outcome := GoesOn;
    }

    // handleOption
    method ReadValueOption(input: InputStream, ghost groups: set<Id>) returns (outcome: Outcome)
      requires IsValueType(DefOf(definition))
      modifies this`value, input
      ensures IsOutcome(OptionTurn(old(View()), groups, VALUE, old(input.view)), outcome, View(), input.view)
    {
      hide OptionTurn, ReadValue, IsValueType;
      ValueTurn(View(), groups, input.view);
      var v := ReadOneValue(input);
      ghost var p := View();
      assert p == old(View());
      if v.Got? {
        value := Place(value, v.value);
        assert View() == p.(value := Place(p.value, v.value));
        outcome := GoesOn;
      } else {
        outcome := if v.Short? then Returns else IsUndefined;
      }
    }

    // One switch of parseOptions.
    method ReadOption(input: InputStream, groups: set<Id>, tag: Byte) returns (outcome: Outcome)
      modifies this, input
      ensures IsOutcome(OptionTurn(old(View()), groups, tag, old(input.view)), outcome, View(), input.view)
    {
      hide ReadWord, ReadString, LabelLoop, ReadValue, PlaceParent, IsValueType;
      outcome := GoesOn;
      if tag == LABEL {
        var ok, l := ReadLabelled(input, title, TINY);
        if ok { title := l; } else { outcome := IsUndefined; }
      } else if tag == DESCRIPTION {
        var ok, l := ReadLabelled(input, description, SHORT);
        if ok { description := l; } else { outcome := IsUndefined; }
      } else if tag == TAGS || tag == USERID {
        var s := input.String(TINY);
        if s.Fault? { return IsUndefined; }
        if s.Got? {
          if tag == TAGS { tags := Place(tags, s.value); } else { userid := Place(userid, s.value); }
        }
      } else if tag == ORDER {
        var v := input.Word(4);
        if v.Got? { order := Place(order, v.value); }
      } else if tag == PARENTID {
        outcome := ReadParent(input, groups);
      } else if tag == USERDATA {
        outcome := ReadUserdata(input, groups);
      } else if tag == READONLY {
        var v := input.Word(1);
        if v.Got? { readonly := Place(readonly, v.value != 0); }
      } else if tag == VALUE && IsValueType(DefOf(definition)) {
        outcome := ReadValueOption(input, groups);
      } else if tag != WIDGET {
        outcome := Returns;
      }
    }

    method ParseOptions(input: InputStream, groups: set<Id>) returns (ok: bool)
      modifies this, input
      ensures ok ==> OptionLoop(old(View()), groups, old(input.view)) == Done(View(), input.view)
      ensures !ok ==> OptionLoop(old(View()), groups, old(input.view)).Failed?
    {
      hide OptionTurn;
      ghost var whole := OptionLoop(View(), groups, input.view);
      while !input.view.eof
        invariant OptionLoop(View(), groups, input.view) == whole
        decreases |input.view.rest|
      {
        var tag := input.Next();
        if tag.None? || tag.value == TERMINATOR { return true; }
        var outcome := ReadOption(input, groups, tag.value);
        if outcome.IsUndefined? { return false; }
        if outcome.Returns? { return true; }
      }
      ok := true;
    }

    // the texts of update()
    method UpdateTexts(other: Param) returns (dirty: bool)
      modifies this`title, this`description, this`tags, this`userid
      ensures title == old(title).(main := SetFrom(old(title).main, other.title.main))
      ensures description == old(description).(main := SetFrom(old(description).main, other.description.main))
      ensures tags == SetFrom(old(tags), other.tags) && userid == SetFrom(old(userid), other.userid)
      ensures dirty == (title.main.value != old(title).main.value
               || description.main.value != old(description).main.value
                        || tags.value != old(tags).value || userid.value != old(userid).value)
    {
      forall o, o': Opt<Text>, v
        ensures Stored(o, v, o') <==> o' == Assign(o, v)
      {
        StoredIsAssigned(o, v, o');
      }
      var a, b, c, d := false, false, false, false;
      if other.title.main.has { a := SetLabel(other.title.main.value); }
      if other.description.main.has { b := SetDescription(other.description.main.value); }
      if other.tags.has { c := SetTags(other.tags.value); }
      if other.userid.has { d := SetUserid(other.userid.value); }
      dirty := a || b || c || d;
    }

    // the rest of update()
    method UpdateOthers(other: Param, sameKind: bool) returns (dirty: bool)
      modifies this`value, this`order, this`readonly, this`userdata, this`userdataChanged
      ensures value == if sameKind then SetFrom(old(value), other.value) else old(value)
      ensures order == SetFrom(old(order), other.order) && readonly == SetFrom(old(readonly), other.readonly)
      ensures userdata == if other.userdata != [] then other.userdata else old(userdata)
      ensures userdataChanged == (old(userdataChanged) || other.userdata != [])
      ensures dirty == (value.value != old(value).value || order.value != old(order).value
                        || readonly.value != old(readonly).value || other.userdata != [])
    {
      var a, b, c := false, false, false;
      if sameKind && other.value.has { a := SetValue(other.value.value); }
      if other.order.has { b := SetOrder(other.order.value); }
      if other.userdata != [] { SetUserdata(other.userdata); }
      if other.readonly.has { c := SetReadonly(other.readonly.value); }
      dirty := a || b || c || other.userdata != [];
    }

    // each setter, for a field that the other one has
    method UpdateFields(other: Param) returns (dirty: bool)
      requires other.id == id
      modifies this`value, this`order, this`readonly, this`userdata, this`userdataChanged
      modifies this`title, this`description, this`tags, this`userid
      ensures View() == Updated(old(View()), other)
      ensures dirty <==> Differs(View(), old(View())) || other.userdata != []
    {
      hide SameKind, IsValueType, Differs, SetFrom, Updated;
      ghost var p := View();
      var td := DefOf(definition);
      var sameKind := IsValueType(td) && SameKind(td, other.td);
      var a := UpdateOthers(other, sameKind);
      var b := UpdateTexts(other);
      dirty := a || b;
      UpdatedIs(p, other, View());
      DiffersInAField(View(), p);
    }

    // the fields, then the parent
    method UpdateFrom(other: Param) returns (dirty: bool)
      requires other.id == id
      modifies this
      ensures View() == Applied(old(View()), other) && (dirty <==> Touches(old(View()), other))
    {
      hide Differs, Updated;
      dirty := UpdateFields(other);
      if other.parent.has {
        var moved := SetParent(other.parent.value);
        dirty := dirty || moved;
      }
    }

    // update(other)
    method Update(other: Parameter) returns (dirty: bool)
      modifies this
      ensures View() == if other == this then old(View()) else Applied(old(View()), old(other.View()))
      ensures dirty <==> other != this && Touches(old(View()), old(other.View()))
    {
      if other == this || other.id != id {
        return false;
      }
      dirty := UpdateFrom(other.View());
    }
  }

  lemma UpdatedIs(p: Param, o: Param, q: Param)
    requires o.id == p.id && q.id == p.id && q.td == p.td && q.parent == p.parent
    requires q.value == if IsValueType(p.td) && SameKind(p.td, o.td) then SetFrom(p.value, o.value) else p.value
    requires q.title == p.title.(main := SetFrom(p.title.main, o.title.main))
    requires q.description == p.description.(main := SetFrom(p.description.main, o.description.main))
    requires q.tags == SetFrom(p.tags, o.tags) && q.userid == SetFrom(p.userid, o.userid)
    requires q.order == SetFrom(p.order, o.order) && q.readonly == SetFrom(p.readonly, o.readonly)
    requires q.userdata == if o.userdata != [] then o.userdata else p.userdata
    requires q.userdataChanged == (p.userdataChanged || o.userdata != [])
    ensures q == Updated(p, o)
  {
    hide SameKind, SetFrom;
  }

  lemma ValueTurn(p: Param, groups: set<Id>, s: Stream)
    requires IsValueType(p.td)
    ensures var r := ReadValue(p.td, s);
      OptionTurn(p, groups, VALUE, s) ==
        if r.Got? then Again(p.(value := Place(p.value, r.value)), r.next) else if r.Short? then Stop(p, r.next)
            else Undefined
  {
    hide ReadWord, LabelLoop, ReadString, ReadValue;
  }

  // What an option did to the loop.
  datatype Outcome = GoesOn | Returns | IsUndefined

  ghost predicate IsOutcome(turn: Turn, outcome: Outcome, p: Param, s: Stream) {
    match outcome
    case GoesOn => turn == Again(p, s)
    case Returns => turn == Stop(p, s)
    case IsUndefined => turn.Undefined?
  }

  // ---------------------------------------------------------------- the factories

  // createParameter: a fresh object, or null
  method CreateDefinition(typeId: Byte) returns (r: Option<Definition>)
    ensures r.None? <==> CreateType(typeId).None?
    ensures r.Some? ==> fresh(Objects(r.value)) && DefOf(r.value) == CreateType(typeId).value
  {
    if IsNumber(typeId) {
      var o := new NumberDefinition(typeId);
      r := Some(OfNumber(o));
    } else if IsSimple(typeId) {
      var o := new SimpleDefinition(typeId);
      r := Some(OfSimple(o));
    } else if HasNoOptions(typeId) {
      r := Some(OfNoOptions(typeId));
    } else if typeId == STRING {
      var o := new StringDefinition();
      r := Some(OfString(o));
    } else if typeId == URI {
      var o := new UriDefinition();
      r := Some(OfUri(o));
    } else {
      r := None;
    }
  }

  // createRangeParameter
  method CreateRangeDefinition(element: Byte) returns (r: Option<Definition>)
    ensures r.None? <==> CreateRange(element).None?
    ensures r.Some? ==> fresh(Objects(r.value)) && DefOf(r.value) == CreateRange(element).value
  {
    if IsNumber(element) {
      var o := new RangeDefinition(element);
      r := Some(OfRange(o));
    } else {
      r := None;
    }
  }

  // ---------------------------------------------------------------- the parsers

  // A parser's answer: the new parameter object, a null pointer, or none that is defined.
  datatype Answer = AnswerFound(p: Parameter) | AnswerNobody | AnswerUnknown

  ghost predicate Answers(read: ParamRead, answer: Answer, s: Stream)
    reads if answer.AnswerFound? then {answer.p} + Objects(answer.p.definition) else {}
  {
    match answer
    case AnswerFound(p) => read == Found(p.View(), s)
    case AnswerNobody => read == Nobody(s)
    case AnswerUnknown => read.Unknown?
  }

  // the rest of ParameterParser::parse for a created parameter
  method ParseBodyOf(id: Id, definition: Definition, input: InputStream, groups: set<Id>) returns (answer: Answer)
    modifies Objects(definition), input
    ensures Answers(ParseBody(id, old(DefOf(definition)), groups, old(input.view)), answer, input.view)
    ensures answer.AnswerFound? ==> fresh(answer.p) && answer.p.definition == definition
  {
    hide ParseType, OptionLoop;
    var ok := ParseDefinition(definition, input);
    if !ok { return AnswerUnknown; }
    var p := new Parameter(id, definition);
    ok := p.ParseOptions(input, groups);
    answer := if ok then AnswerFound(p) else AnswerUnknown;
  }

  // ParameterParser::parse
  method Parse(input: InputStream, groups: set<Id>) returns (answer: Answer)
    modifies input
    ensures Answers(ParseParam(groups, old(input.view)), answer, input.view)
    ensures answer.AnswerFound? ==> fresh(answer.p)
  {
    hide ParseBody, ReadWord, CreateType;
    SmallPowers();
    var id := input.Word(2);
    if id.Short? { return AnswerNobody; }
    var typeId := input.Next();
    if typeId.None? || typeId.value >= DATATYPE_MAX { return AnswerNobody; }
    if typeId.value == ENUM { return AnswerUnknown; }
    var created: Option<Definition> := None;
    if typeId.value == RANGE {
      var element := input.Next();
      if element.Some? { created := CreateRangeDefinition(element.value); }
    } else {
      created := CreateDefinition(typeId.value);
    }
    if created.None? { return AnswerNobody; }
    answer := ParseBodyOf(ToId(id.value), created.value, input, groups);
  }

  // ParameterParser::parseUpdateValue and ParameterFactory::readValue
  method ParseValue(input: InputStream) returns (answer: Answer)
    modifies input
    ensures Answers(ParseUpdateValue(old(input.view)), answer, input.view)
    ensures answer.AnswerFound? ==> fresh(answer.p)
  {
    hide ReadWord, ReadValue, CreateType;
    SmallPowers();
    var id := input.Word(2);
    if id.Short? { return AnswerNobody; }
    var typeId := input.Next();
    if typeId == Some(ENUM) { return AnswerUnknown; }
    if typeId.None? || HasNoOptions(typeId.value) { return AnswerNobody; }
    var created := CreateDefinition(typeId.value);
    if created.None? { return AnswerNobody; }
    var p := new Parameter(ToId(id.value), created.value);
    answer := ReadIntoValue(p, input);
  }

  // ParameterFactory::readValue
  method ReadIntoValue(p: Parameter, input: InputStream) returns (answer: Answer)
    modifies p, input
    ensures answer.AnswerFound? ==> answer.p == p
    ensures match ReadValue(DefOf(p.definition), old(input.view))
      case Fault => answer.AnswerUnknown?
      case Got(v, end) => answer.AnswerFound? && input.view == end
          && p.View() == old(p.View()).(value := Assign(old(p.value), v))
      case Short(v, end) =>
        if v.OneText? then answer.AnswerFound? && input.view == end
            && p.View() == old(p.View()).(value := Assign(old(p.value), v))
        else answer.AnswerUnknown?
  {
    hide ReadWord, ReadString;
    var v := p.ReadOneValue(input);
    match v
    case Fault => answer := AnswerUnknown;
    case Got(x, _) =>
      var dirty := p.SetValue(x);
      answer := AnswerFound(p);
    case Short(x, _) =>
      if x.OneText? {
        var dirty := p.SetValue(x);
        answer := AnswerFound(p);
      } else {
        answer := AnswerUnknown;
      }
  }

  lemma SixAppended(start: Text, a: Text, b: Text, c: Text, d: Text, e: Text, f: Text)
    ensures start + a + b + c + d + e + f == start + (a + (b + (c + (d + (e + f)))))
  {
    Appended(start + a, b, c, d, e, f);
    assert start + a + (b + (c + (d + (e + f)))) == start + (a + (b + (c + (d + (e + f)))));
  }

  lemma FourAppended(start: Text, a: Text, b: Text, c: Text, d: Text)
    ensures start + a + b + c + d == start + (a + (b + (c + d)))
  {
    ThreeAppended(start + a, b, c, d);
    assert start + a + (b + (c + d)) == start + (a + (b + (c + d)));
  }

  // The late options are those of the late fields.
  lemma LateAlone(p: Param, q: Param, all: bool)
    requires p.parent == q.parent && p.userdata == q.userdata && p.userdataChanged == q.userdataChanged
    requires p.userid == q.userid && p.readonly == q.readonly
    ensures LateOptionBytes(p, all) == LateOptionBytes(q, all)
  {
  }

  // Flushing the type definition first changes nothing for the options.
  lemma ValuePartStays(td: TypeDef, o: Opt<Value>, all: bool)
    ensures ValueEmit(FlushedType(td, all), o, all) == ValueEmit(td, o, all)
             && IsValueType(FlushedType(td, all)) == IsValueType(td)
  {
    hide BigEndian, PrefixedBytes, Emit, Width;
  }

  lemma OptionPartStays(p: Param, all: bool)
    ensures var q := p.(td := FlushedType(p.td, all));
      OptionBytes(q, all) == OptionBytes(p, all)
          && FlushedOptions(q, all) == FlushedOptions(p, all).(td := FlushedType(p.td, all))
  {
    hide FlushedType, ValueEmit, LabelEmit, TextEmit, WordEmit, LateOptionBytes;
    ValuePartStays(p.td, p.value, all);
    LateAlone(p, p.(td := FlushedType(p.td, all)), all);
  }
}
